/** The breathing exercise: a driver that is either running or idle, a
    seconds counter advanced by a one-second interval while running, and a
    breathing phase that follows the counter through an eight-second
    cycle, four seconds in and four seconds out. */
module Breathing {
  import opened Text

  /** The phase type admits four values; the driver only ever uses two. */
  datatype Phase = Inhale | Hold | Exhale | Rest

  /** The phase for a counter value: inhale for the first half of each
      eight-second cycle, exhale for the second. */
  function PhaseAt(seconds: nat): (p: Phase)
    ensures p == Inhale <==> seconds % 8 < 4
    ensures p == Exhale <==> seconds % 8 >= 4
  {
    if seconds % 8 < 4 then Inhale else Exhale
  }

  /** The cycle repeats every eight seconds and turns over every four. */
  lemma PhaseCycle(seconds: nat)
    ensures PhaseAt(seconds + 8) == PhaseAt(seconds)
    ensures PhaseAt(seconds + 4) != PhaseAt(seconds)
  {
  }

  /** The headline shown for a phase. */
  function BreathingText(p: Phase): string {
    match p
    case Inhale => "Breathe In"
    case Exhale => "Breathe Out"
    case _ => "Breathe"
  }

  /** The instruction shown for a phase. */
  function BreathingInstruction(p: Phase): string {
    match p
    case Inhale => "Breathe in slowly through your nose"
    case Exhale => "Breathe out slowly through your mouth"
    case _ => "Focus on your breath"
  }

  /** What the screen says at a counter value: "in" for the first half of
      each cycle, "out" for the second, never the fallback texts. */
  lemma TextsFollowCycle(seconds: nat)
    ensures BreathingText(PhaseAt(seconds)) == (if seconds % 8 < 4 then "Breathe In" else "Breathe Out")
    ensures BreathingInstruction(PhaseAt(seconds)) ==
      (if seconds % 8 < 4 then "Breathe in slowly through your nose" else "Breathe out slowly through your mouth")
    ensures BreathingText(PhaseAt(seconds)) != BreathingText(Hold)
    ensures BreathingInstruction(PhaseAt(seconds)) != BreathingInstruction(Rest)
  {
  }

  /** `formatTime`: minutes, a colon, and the seconds within the minute in
      two digits. */
  function FormatTime(seconds: nat): (r: string)
    ensures |r| >= 4 && r[|r| - 3] == ':'
    ensures forall k | 0 <= k < |r| && k != |r| - 3 :: IsDigit(r[k])
    ensures r[0] != '0' || r[1] == ':'
  {
    var mins := seconds / 60;
    var secs := seconds % 60;
    var m := Decimal(mins);
    var r := m + ":" + (if secs < 10 then "0" + Decimal(secs) else Decimal(secs));
    assert r[0] == m[0];
    assert |m| == 1 ==> r[1] == ':';
    r
  }

  /** Position of the first ':' in `t`, or `|t|` when there is none. */
  function ColonAt(t: string): (i: nat)
    ensures i <= |t| && ':' !in t[..i]
    ensures i < |t| ==> t[i] == ':'
  {
    if t == [] || t[0] == ':' then 0
    else
      var i := 1 + ColonAt(t[1..]);
      assert t[..i] == [t[0]] + t[1..][..i - 1];
      i
  }

  /** Reads an "m:ss" clock back into seconds. */
  function ParseClock(t: string): nat {
    var i := ColonAt(t);
    if i == |t| then 0 else 60 * ParseDecimal(t[..i]) + ParseDecimal(t[i + 1..])
  }

  /** The clock text always has two digits after the colon, naming fewer
      than sixty seconds, and reading it back gives the counter. */
  lemma FormatTimeRoundTrip(seconds: nat)
    ensures var t := FormatTime(seconds);
      && ColonAt(t) < |t|
      && |t| - ColonAt(t) - 1 == 2
      && ParseDecimal(t[ColonAt(t) + 1..]) < 60
      && ParseClock(t) == seconds
  {
    var mins, secs := seconds / 60, seconds % 60;
    var m := Decimal(mins);
    var ss := if secs < 10 then "0" + Decimal(secs) else Decimal(secs);
    var t := m + ":" + ss;
    assert ':' !in m by {
      assert forall k | 0 <= k < |m| :: IsDigit(m[k]);
    }
    assert ColonAt(t) == |m| by {
      assert t[..|m|] == m;
      assert t[|m|] == ':';
    }
    assert t[..|m|] == m && t[|m| + 1..] == ss;
    DecimalRoundTrip(mins);
    DecimalRoundTrip(secs);
    if secs < 10 {
      assert ss[..1] == "0";
    } else {
      assert secs / 10 < 10;
    }
  }

  /** The exercise's state: whether it runs, the counter, the phase on
      show, whether the one-second interval is installed, and whether the
      view is still mounted. */
  class BreathingDriver {
    var running: bool
    var seconds: nat
    var phase: Phase
    var ticking: bool
    var mounted: bool

    /** The interval is installed exactly while the view is mounted and
        running, and the phase always agrees with the counter. */
    ghost predicate Valid()
      reads this
    {
      && ticking == (running && mounted)
      && phase == PhaseAt(seconds)
    }

    constructor ()
      ensures Valid()
      ensures !running && seconds == 0 && phase == Inhale && !ticking && mounted
    {
      running := false;
      seconds := 0;
      phase := Inhale;
      ticking := false;
      mounted := true;
    }

    /** `startBreathing`, followed by the effect that installs the interval. */
    method Start()
      requires Valid() && mounted
      modifies this
      ensures Valid()
      ensures running && seconds == 0 && phase == Inhale && ticking && mounted
    {
      running := true;
      seconds := 0;
      phase := Inhale;
      ticking := true;
    }

    /** `stopBreathing`, followed by the effect cleanup that clears the interval. */
    method Stop()
      requires Valid() && mounted
      modifies this
      ensures Valid()
      ensures !running && seconds == 0 && phase == Inhale && !ticking && mounted
    {
      running := false;
      seconds := 0;
      phase := Inhale;
      ticking := false;
    }

    /** One firing of the interval: one more second, and the phase for it. */
    method Tick()
      requires Valid() && ticking
      modifies this
      ensures Valid()
      ensures seconds == old(seconds) + 1
      ensures phase == (if seconds % 8 < 4 then Inhale else Exhale)
      ensures running && ticking && mounted
    {
      var next := seconds + 1;
      if next % 8 < 4 {
        phase := Inhale;
      } else {
        phase := Exhale;
      }
      seconds := next;
    }

    /** Tearing the view down runs the effect cleanup: no interval is left. */
    method Unmount()
      requires Valid()
      modifies this
      ensures Valid()
      ensures !ticking && !mounted
      ensures running == old(running) && seconds == old(seconds) && phase == old(phase)
    {
      mounted := false;
      ticking := false;
    }
  }
}
