/** The affirmation generator: a random pick from a fixed list of
    affirmations and a fixed list of emoji, and a history of at most ten
    records, newest first, mirrored to the `affirmationsHistory` collection. */
module Affirmations {
  import opened Text

  /** One generated affirmation; the timestamp is in milliseconds. */
  datatype Affirmation = Affirmation(id: string, text: string, timestamp: int)

  const Texts: seq<string> := [
    "I am worthy of love and respect.",
    "I choose to focus on what I can control.",
    "My challenges help me grow stronger every day.",
    "I am enough just as I am.",
    "I release what no longer serves me.",
    "I trust in my ability to figure things out.",
    "My mind is calm and my heart is at peace.",
    "I am open to the joy and abundance around me.",
    "I forgive myself and set myself free.",
    "I am creating a life I love.",
    "My potential is limitless.",
    "I choose to see the good in myself and others.",
    "I am resilient and can handle whatever comes my way.",
    "I am proud of how far I've come.",
    "I deserve happiness and fulfillment.",
    "I am grateful for this moment and all it offers.",
    "I trust the process of my journey.",
    "I am becoming the person I'm meant to be.",
    "My voice matters and my story is important.",
    "I choose peace over worry, love over fear."
  ]

  /** The emoji list, character for character as the component holds it:
      each is the UTF-8 encoding of an emoji read back as Windows-1252 text. */
  const Emojis: seq<string> := [
    "\U{F0}\U{178}\U{2019}\U{2013}",
    "\U{F0}\U{178}\U{152}\U{178}",
    "\U{E2}\U{153}\U{A8}",
    "\U{F0}\U{178}\U{152}\U{BB}",
    "\U{F0}\U{178}\U{152}\U{2C6}",
    "\U{F0}\U{178}\U{152}\U{17E}",
    "\U{F0}\U{178}\U{152}\U{B8}",
    "\U{F0}\U{178}\U{2019}\U{AB}",
    "\U{F0}\U{178}\U{A6}\U{2039}",
    "\U{F0}\U{178}\U{152}\U{BA}"
  ]

  /** The most records the history keeps. */
  const HistoryCap: nat := 10

  function Min(a: int, b: int): int {
    if a <= b then a else b
  }

  /** `Math.floor(r * n)` for a draw `r` of `Math.random()`: an index of a
      list of length `n`. */
  function Pick(r: real, n: nat): (i: nat)
    requires 0.0 <= r < 1.0 && n > 0
    ensures i < n
    ensures i as real <= r * n as real < i as real + 1.0
  {
    var x := r * n as real;
    assert x < n as real;
    x.Floor
  }

  /** `[a, ...history].slice(0, 10)`: the new record in front of the first
      nine old ones. */
  function CappedPrepend(a: Affirmation, history: seq<Affirmation>): (r: seq<Affirmation>)
    ensures |r| == Min(|history| + 1, HistoryCap) && |r| <= HistoryCap
    ensures r[0] == a
    ensures r[1..] == history[..Min(|history|, HistoryCap - 1)]
  {
    ([a] + history)[..Min(|history| + 1, HistoryCap)]
  }

  /** The history after generating each record of `created`, in order. */
  function GenerateAll(history: seq<Affirmation>, created: seq<Affirmation>): (r: seq<Affirmation>)
    ensures created != [] ==> 1 <= |r| <= HistoryCap && r[0] == created[|created| - 1]
    ensures created == [] ==> r == history
    decreases |created|
  {
    if created == [] then history else GenerateAll(CappedPrepend(created[0], history), created[1..])
  }

  function Reversed<T>(s: seq<T>): (r: seq<T>)
    ensures |r| == |s|
  {
    if s == [] then [] else Reversed(s[1..]) + [s[0]]
  }

  lemma PrefixOfPrefix<T>(front: seq<T>, back: seq<T>, m: nat, n: nat)
    requires m <= |back| && n <= |front| + m
    ensures (front + back[..m])[..n] == (front + back)[..n]
  {
  }

  /** After any run of generations the history is the newest records
      first: the created ones, latest first, then the old history, cut to
      ten. */
  lemma {:induction false} GenerateAllKeepsNewest(history: seq<Affirmation>, created: seq<Affirmation>)
    requires |history| <= HistoryCap
    ensures GenerateAll(history, created) == (Reversed(created) + history)[..Min(|created| + |history|, HistoryCap)]
    decreases |created|
  {
    if created == [] {
      assert Reversed(created) + history == history;
    } else {
      var c, rest := created[0], created[1..];
      var front := CappedPrepend(c, history);
      GenerateAllKeepsNewest(front, rest);
      var m := Min(|history| + 1, HistoryCap);
      var n := Min(|rest| + m, HistoryCap);
      assert front == ([c] + history)[..m];
      PrefixOfPrefix(Reversed(rest), [c] + history, m, n);
      assert Reversed(created) + history == Reversed(rest) + ([c] + history);
    }
  }

  /** Ten or more generations leave exactly the ten latest records, newest first. */
  lemma TenGenerationsFillHistory(history: seq<Affirmation>, created: seq<Affirmation>)
    requires |history| <= HistoryCap && |created| >= HistoryCap
    ensures GenerateAll(history, created) == Reversed(created)[..HistoryCap]
  {
    GenerateAllKeepsNewest(history, created);
    assert (Reversed(created) + history)[..HistoryCap] == Reversed(created)[..HistoryCap];
  }

  /** Timestamps do not increase from front to back. */
  predicate NewestFirst(h: seq<Affirmation>) {
    forall i, j | 0 <= i < j < |h| :: h[i].timestamp >= h[j].timestamp
  }

  /** Puts `a` in front of the first record that is not newer than it. */
  function InsertByTime(a: Affirmation, sorted: seq<Affirmation>): (r: seq<Affirmation>)
    requires NewestFirst(sorted)
    ensures NewestFirst(r)
    ensures multiset(r) == multiset(sorted) + multiset{a}
    ensures forall k | 0 <= k < |r| :: r[k] == a || r[k] in sorted
  {
    if sorted == [] || a.timestamp >= sorted[0].timestamp then
      InsertInFront(a, sorted);
      [a] + sorted
    else
      var first, tail := sorted[0], sorted[1..];
      NewestFirstTail(sorted);
      var rest := InsertByTime(a, tail);
      InsertBehind(a, first, tail, rest);
      assert sorted == [first] + tail;
      [first] + rest
  }

  /** The case of `InsertByTime` that puts `a` in front. */
  lemma InsertInFront(a: Affirmation, sorted: seq<Affirmation>)
    requires NewestFirst(sorted)
    requires sorted == [] || a.timestamp >= sorted[0].timestamp
    ensures NewestFirst([a] + sorted)
    ensures forall k | 0 <= k < |sorted| + 1 :: ([a] + sorted)[k] == a || ([a] + sorted)[k] in sorted
  {
    if sorted != [] {
      NewestFirstTail(sorted);
    }
    NewestFirstCons(a, sorted);
    forall k | 1 <= k < |sorted| + 1
      ensures ([a] + sorted)[k] in sorted
    {
      assert ([a] + sorted)[k] == sorted[k - 1];
    }
  }

  /** The step of `InsertByTime` that keeps `first` in front. */
  lemma InsertBehind(a: Affirmation, first: Affirmation, tail: seq<Affirmation>, rest: seq<Affirmation>)
    requires a.timestamp < first.timestamp
    requires forall x | x in tail :: x.timestamp <= first.timestamp
    requires NewestFirst(rest)
    requires multiset(rest) == multiset(tail) + multiset{a}
    requires forall k | 0 <= k < |rest| :: rest[k] == a || rest[k] in tail
    ensures NewestFirst([first] + rest)
    ensures multiset([first] + rest) == multiset([first] + tail) + multiset{a}
    ensures forall k | 0 <= k < |rest| + 1 :: ([first] + rest)[k] == a || ([first] + rest)[k] in [first] + tail
  {
    NewestFirstCons(first, rest);
    forall k | 0 <= k < |rest| + 1
      ensures ([first] + rest)[k] == a || ([first] + rest)[k] in [first] + tail
    {
      if k > 0 {
        assert ([first] + rest)[k] == rest[k - 1];
      }
    }
  }

  lemma NewestFirstTail(h: seq<Affirmation>)
    requires NewestFirst(h) && h != []
    ensures NewestFirst(h[1..])
    ensures forall x | x in h[1..] :: x.timestamp <= h[0].timestamp
  {
    forall x | x in h[1..]
      ensures x.timestamp <= h[0].timestamp
    {
      var j :| 0 <= j < |h[1..]| && h[1..][j] == x;
      assert h[j + 1] == x;
    }
  }

  lemma NewestFirstCons(x: Affirmation, rest: seq<Affirmation>)
    requires NewestFirst(rest)
    requires forall k | 0 <= k < |rest| :: rest[k].timestamp <= x.timestamp
    ensures NewestFirst([x] + rest)
  {
    forall i, j | 0 <= i < j < |rest| + 1
      ensures ([x] + rest)[i].timestamp >= ([x] + rest)[j].timestamp
    {
      assert ([x] + rest)[j] == rest[j - 1];
      if i > 0 {
        assert ([x] + rest)[i] == rest[i - 1];
      }
    }
  }

  /** `history.sort((a, b) => b.timestamp - a.timestamp)`: newest first. */
  function SortNewestFirst(h: seq<Affirmation>): (r: seq<Affirmation>)
    ensures NewestFirst(r)
    ensures multiset(r) == multiset(h)
  {
    if h == [] then []
    else
      assert h == [h[0]] + h[1..];
      InsertByTime(h[0], SortNewestFirst(h[1..]))
  }

  /** A history that is already newest first loads unchanged. */
  lemma {:induction false} SortKeepsSortedHistory(h: seq<Affirmation>)
    requires NewestFirst(h)
    ensures SortNewestFirst(h) == h
  {
    if h != [] {
      SortKeepsSortedHistory(h[1..]);
      assert h == [h[0]] + h[1..];
    }
  }

  /** Generating with a clock that has not gone back keeps the history
      newest first, so reloading it does not reorder it. */
  lemma PrependKeepsNewestFirst(a: Affirmation, history: seq<Affirmation>)
    requires NewestFirst(history)
    requires forall x | x in history :: x.timestamp <= a.timestamp
    ensures NewestFirst(CappedPrepend(a, history))
    ensures SortNewestFirst(CappedPrepend(a, history)) == CappedPrepend(a, history)
  {
    var r := CappedPrepend(a, history);
    forall i, j | 0 <= i < j < |r|
      ensures r[i].timestamp >= r[j].timestamp
    {
      assert r[j] == history[j - 1];
      if i > 0 {
        assert r[i] == history[i - 1];
      }
    }
    SortKeepsSortedHistory(r);
  }

  /** The generator's state: the affirmation and emoji on show, the
      history list, the busy flag of the button, and the
      `affirmationsHistory` collection. */
  class AffirmationGenerator {
    var current: string
    var currentEmoji: string
    var history: seq<Affirmation>
    var generating: bool
    var stored: seq<Affirmation>

    /** Mounting over the collection found in storage, before it is loaded. */
    constructor (saved: seq<Affirmation>)
      ensures current == [] && currentEmoji == Emojis[0] && history == [] && !generating
      ensures stored == saved
    {
      current := [];
      currentEmoji := Emojis[0];
      history := [];
      generating := false;
      stored := saved;
    }

    /** `loadHistory`: the stored records, newest first. */
    method LoadHistory()
      modifies this
      ensures history == SortNewestFirst(stored)
      ensures multiset(history) == multiset(stored) && NewestFirst(history)
      ensures stored == old(stored) && current == old(current) && currentEmoji == old(currentEmoji)
      ensures generating == old(generating)
    {
      history := SortNewestFirst(stored);
    }

    /** The synchronous part of `generateAffirmation`, reachable only while
        the button is enabled: the button shows busy and the timer is
        scheduled. */
    method Generate()
      requires !generating
      modifies this
      ensures generating
      ensures history == old(history) && stored == old(stored)
      ensures current == old(current) && currentEmoji == old(currentEmoji)
    {
      generating := true;
    }

    /** The delayed part of `generateAffirmation`, run only by the timer a
        `Generate` scheduled, with the two random draws and the clock
        (milliseconds since the epoch) passed in. */
    method CompleteGeneration(textDraw: real, emojiDraw: real, now: nat)
      requires generating
      requires 0.0 <= textDraw < 1.0 && 0.0 <= emojiDraw < 1.0
      modifies this
      ensures current == Texts[Pick(textDraw, |Texts|)] && current in Texts
      ensures currentEmoji == Emojis[Pick(emojiDraw, |Emojis|)] && currentEmoji in Emojis
      ensures !generating
      ensures history == CappedPrepend(Affirmation(Decimal(now), current, now), old(history))
      ensures |history| <= HistoryCap
      ensures stored == history
    {
      var text := Texts[Pick(textDraw, |Texts|)];
      var emoji := Emojis[Pick(emojiDraw, |Emojis|)];
      current := text;
      currentEmoji := emoji;
      generating := false;
      var created := Affirmation(Decimal(now), text, now);
      var updated := CappedPrepend(created, history);
      history := updated;
      stored := updated;
    }
  }
}
