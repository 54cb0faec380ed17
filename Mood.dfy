/** The mood tracker: a five-step mood scale, a pending selection with its
    note, and the saved `moods` collection, which a save updates so that it
    holds one entry per calendar day. */
module Mood {
  import opened Wrappers

  /** A point on the mood scale; the selection buttons only offer these. */
  type MoodLevel = x: int | 1 <= x <= 5 witness 1

  /** One button of the scale; `name` is the option's label text. */
  datatype MoodOption = MoodOption(value: MoodLevel, emoji: string, name: string, color: string)

  /** The mood scale shown as selection buttons. */
  const Scale: seq<MoodOption> := [
    MoodOption(1, "\U{1F622}", "Very Sad", "from-red-400 to-red-500"),
    MoodOption(2, "\U{1F61E}", "Sad", "from-orange-400 to-orange-500"),
    MoodOption(3, "\U{1F610}", "Neutral", "from-yellow-400 to-yellow-500"),
    MoodOption(4, "\U{1F60A}", "Happy", "from-green-400 to-green-500"),
    MoodOption(5, "\U{1F601}", "Very Happy", "from-blue-400 to-blue-500")
  ]

  /** The scale lists every level once, in increasing order, each with its own emoji. */
  lemma ScaleListsEachLevelOnce()
    ensures |Scale| == 5
    ensures forall i | 0 <= i < |Scale| :: Scale[i].value == i + 1
    ensures forall i, j | 0 <= i < j < |Scale| :: Scale[i].emoji != Scale[j].emoji
  {
  }

  /** One saved mood, keyed by its calendar day. */
  datatype MoodEntry = MoodEntry(date: string, mood: MoodLevel, note: string)

  /** `iso.split('T')[0]`: the calendar-day part of an ISO timestamp, that
      is, everything before the first 'T' (all of it when there is none). */
  function DayKey(iso: string): (r: string)
    ensures |r| <= |iso| && r == iso[..|r|]
    ensures 'T' !in r
    ensures |r| < |iso| ==> iso[|r|] == 'T'
  {
    if iso == [] || iso[0] == 'T' then []
    else
      var rest := DayKey(iso[1..]);
      assert [iso[0]] + rest == iso[..|rest| + 1];
      [iso[0]] + rest
  }

  /** `moods.findIndex(entry => entry.date === day)`: the first index
      holding `day`, or -1 when no entry does. */
  function IndexOfDay(moods: seq<MoodEntry>, day: string): (r: int)
    ensures -1 <= r < |moods|
    ensures r >= 0 ==> moods[r].date == day
    ensures forall k | 0 <= k < |moods| && (r < 0 || k < r) :: moods[k].date != day
  {
    if moods == [] then -1
    else if moods[0].date == day then 0
    else
      var k := IndexOfDay(moods[1..], day);
      if k < 0 then -1 else k + 1
  }

  /** The search the save performs, one entry at a time. */
  method FindDayIndex(moods: seq<MoodEntry>, day: string) returns (r: int)
    ensures r == IndexOfDay(moods, day)
  {
    var i := 0;
    while i < |moods|
      invariant 0 <= i <= |moods|
      invariant forall k | 0 <= k < i :: moods[k].date != day
    {
      if moods[i].date == day {
        return i;
      }
      i := i + 1;
    }
    return -1;
  }

  /** The collection after saving `e`: the first entry of the same day is
      overwritten, or `e` is appended when the day has no entry yet. */
  function Upsert(moods: seq<MoodEntry>, e: MoodEntry): (r: seq<MoodEntry>)
    ensures e in r
    ensures |r| == if HasDay(moods, e.date) then |moods| else |moods| + 1
  {
    var k := IndexOfDay(moods, e.date);
    if k >= 0 then
      assert moods[k := e][k] == e;
      moods[k := e]
    else
      assert (moods + [e])[|moods|] == e;
      moods + [e]
  }

  predicate HasDay(moods: seq<MoodEntry>, day: string) {
    exists k | 0 <= k < |moods| :: moods[k].date == day
  }

  /** No two entries share a calendar day. */
  predicate UniqueDays(moods: seq<MoodEntry>) {
    forall i, j | 0 <= i < j < |moods| :: moods[i].date != moods[j].date
  }

  /** A day that already has an entry keeps the collection's length and gets
      the new entry at the position of its first entry; a new day is appended
      at the end. Every other position is left as it was. */
  lemma UpsertPlacement(moods: seq<MoodEntry>, e: MoodEntry)
    ensures HasDay(moods, e.date) ==>
      var k := IndexOfDay(moods, e.date);
      && |Upsert(moods, e)| == |moods|
      && Upsert(moods, e)[k] == e
      && forall j | 0 <= j < |moods| && j != k :: Upsert(moods, e)[j] == moods[j]
    ensures !HasDay(moods, e.date) ==>
      && |Upsert(moods, e)| == |moods| + 1
      && Upsert(moods, e)[|moods|] == e
      && forall j | 0 <= j < |moods| :: Upsert(moods, e)[j] == moods[j]
  {
  }

  /** Entries of every other day are untouched, position by position. */
  lemma UpsertKeepsOtherDays(moods: seq<MoodEntry>, e: MoodEntry)
    ensures forall j | 0 <= j < |moods| && moods[j].date != e.date :: Upsert(moods, e)[j] == moods[j]
    ensures forall j | 0 <= j < |Upsert(moods, e)| && Upsert(moods, e)[j].date != e.date ::
      j < |moods| && Upsert(moods, e)[j] == moods[j]
  {
  }

  /** After a save the collection holds the new entry, and, when days were
      unique before, it is the only entry of its day and days stay unique. */
  lemma UpsertKeepsDaysUnique(moods: seq<MoodEntry>, e: MoodEntry)
    requires UniqueDays(moods)
    ensures UniqueDays(Upsert(moods, e))
    ensures e in Upsert(moods, e)
    ensures forall x | x in Upsert(moods, e) && x.date == e.date :: x == e
  {
    var u := Upsert(moods, e);
    var k := IndexOfDay(moods, e.date);
    forall i, j | 0 <= i < j < |u|
      ensures u[i].date != u[j].date
    {
      if k >= 0 {
        assert i != k ==> u[i] == moods[i];
        assert j != k ==> u[j] == moods[j];
      } else {
        assert i < |moods|;
        assert j < |moods| ==> u[j] == moods[j];
      }
    }
    if k >= 0 {
      assert u[k] == e;
    } else {
      assert u[|moods|] == e;
    }
    forall x | x in u && x.date == e.date
      ensures x == e
    {
    }
  }

  /** Saving twice on the same day is the same as saving only the second
      time: the later mood replaces the earlier one. */
  lemma {:induction false} UpsertSameDayTwice(moods: seq<MoodEntry>, e1: MoodEntry, e2: MoodEntry)
    requires e1.date == e2.date
    ensures Upsert(Upsert(moods, e1), e2) == Upsert(moods, e2)
  {
    var k := IndexOfDay(moods, e1.date);
    if k < 0 {
      var u := moods + [e1];
      assert forall j | 0 <= j < |moods| :: u[j] == moods[j];
      assert u[|moods|].date == e2.date;
      assert IndexOfDay(u, e2.date) == |moods|;
      assert u[|moods| := e2] == moods + [e2];
    } else {
      var u := moods[k := e1];
      assert forall j | 0 <= j < k :: u[j] == moods[j];
      assert u[k].date == e2.date;
      assert IndexOfDay(u, e2.date) == k;
    }
  }

  /** The mood tracker's state: the pending selection and note of the form,
      and the `moods` collection of local storage. */
  class MoodTracker {
    var selected: Option<MoodLevel>
    var note: string
    var stored: seq<MoodEntry>

    /** Mounting the form over the collection found in storage. */
    constructor (saved: seq<MoodEntry>)
      ensures selected == None && note == [] && stored == saved
    {
      selected := None;
      note := [];
      stored := saved;
    }

    /** `handleMoodSelect`: remembers the chosen level, touching nothing else. */
    method SelectMood(level: MoodLevel)
      modifies this
      ensures selected == Some(level)
      ensures note == old(note) && stored == old(stored)
    {
      selected := Some(level);
    }

    /** The note field's change handler. */
    method EditNote(text: string)
      modifies this
      ensures note == text
      ensures selected == old(selected) && stored == old(stored)
    {
      note := text;
    }

    /** `handleSaveMood`, with the current time passed in as an ISO timestamp.
        Without a selection nothing changes; otherwise today's entry is
        upserted into the collection and the form is cleared. */
    method SaveMood(nowIso: string) returns (ok: bool)
      modifies this
      ensures ok <==> old(selected).Some?
      ensures !ok ==> selected == old(selected) && note == old(note) && stored == old(stored)
      ensures ok ==> stored == Upsert(old(stored), MoodEntry(DayKey(nowIso), old(selected).value, old(note)))
      ensures ok ==> selected == None && note == []
    {
      if selected.None? {
        return false;
      }
      var today := DayKey(nowIso);
      var entry := MoodEntry(today, selected.value, note);
      var moods := stored;
      var existing := FindDayIndex(moods, today);
      if existing >= 0 {
        moods := moods[existing := entry];
      } else {
        moods := moods + [entry];
      }
      stored := moods;
      selected := None;
      note := [];
      return true;
    }
  }

  /** Saving twice in one day, whatever moods are picked, leaves exactly one
      entry for that day, holding the later mood and note. */
  lemma SavingTwiceKeepsOneEntry(moods: seq<MoodEntry>, day: string, m1: MoodLevel, n1: string, m2: MoodLevel, n2: string)
    requires UniqueDays(moods)
    ensures var after := Upsert(Upsert(moods, MoodEntry(day, m1, n1)), MoodEntry(day, m2, n2));
      && UniqueDays(after)
      && MoodEntry(day, m2, n2) in after
      && forall x | x in after && x.date == day :: x == MoodEntry(day, m2, n2)
  {
    UpsertSameDayTwice(moods, MoodEntry(day, m1, n1), MoodEntry(day, m2, n2));
    UpsertKeepsDaysUnique(moods, MoodEntry(day, m2, n2));
  }
}
