/** The journal: a keyword-count sentiment classifier over the draft text,
    and the `journalEntries` collection, to which a save appends. */
module Journal {
  import opened Wrappers
  import opened Text

  const PositiveWords: seq<string> :=
    ["happy", "joy", "love", "great", "wonderful", "amazing", "good", "excited", "grateful"]
  const NegativeWords: seq<string> :=
    ["sad", "angry", "hate", "bad", "terrible", "awful", "depressed", "worried", "anxious"]

  /** No word is in both lists, so one token moves at most one counter. */
  lemma WordListsDisjoint()
    ensures forall w | w in PositiveWords :: w !in NegativeWords
  {
  }

  /** How many of `words` are in `list`, each occurrence counted. */
  function CountIn(words: seq<string>, list: seq<string>): (n: nat)
    ensures n <= |words|
  {
    if words == [] then 0
    else CountIn(words[..|words| - 1], list) + (if words[|words| - 1] in list then 1 else 0)
  }

  /** Together the two counters never exceed the number of tokens. */
  lemma {:induction false} CountsWithinTokens(words: seq<string>)
    ensures CountIn(words, PositiveWords) + CountIn(words, NegativeWords) <= |words|
  {
    if words != [] {
      CountsWithinTokens(words[..|words| - 1]);
      WordListsDisjoint();
    }
  }

  /** The `forEach` over the tokens that bumps the two counters. */
  method CountSentimentWords(words: seq<string>) returns (positiveCount: nat, negativeCount: nat)
    ensures positiveCount == CountIn(words, PositiveWords)
    ensures negativeCount == CountIn(words, NegativeWords)
  {
    positiveCount, negativeCount := 0, 0;
    for i := 0 to |words|
      invariant positiveCount == CountIn(words[..i], PositiveWords)
      invariant negativeCount == CountIn(words[..i], NegativeWords)
    {
      assert words[..i + 1][..i] == words[..i];
      var word := words[i];
      if word in PositiveWords {
        positiveCount := positiveCount + 1;
      }
      if word in NegativeWords {
        negativeCount := negativeCount + 1;
      }
    }
    assert words[..|words|] == words;
  }

  datatype Sentiment = Positive | Negative | Neutral

  /** What the analysis panel shows: the label with its emoji and colour. */
  datatype Analysis = Analysis(sentiment: Sentiment, emoji: string, color: string)

  /** The fixed emoji and colour of each label. */
  function Styled(s: Sentiment): (a: Analysis)
    ensures a.sentiment == s
  {
    match s
    case Positive => Analysis(Positive, "\U{1F60A}", "from-green-400 to-green-500")
    case Negative => Analysis(Negative, "\U{1F622}", "from-red-400 to-red-500")
    case Neutral => Analysis(Neutral, "\U{1F610}", "from-yellow-400 to-yellow-500")
  }

  /** Different labels never share an emoji or a colour. */
  lemma StylesDistinct(s: Sentiment, t: Sentiment)
    requires s != t
    ensures Styled(s).emoji != Styled(t).emoji && Styled(s).color != Styled(t).color
  {
  }

  /** The three-way comparison of the counters. */
  function Classify(positiveCount: nat, negativeCount: nat): (a: Analysis)
    ensures a.sentiment == Positive <==> positiveCount > negativeCount
    ensures a.sentiment == Negative <==> negativeCount > positiveCount
    ensures a.sentiment == Neutral <==> positiveCount == negativeCount
    ensures a == Styled(a.sentiment)
  {
    if positiveCount > negativeCount then Styled(Positive)
    else if negativeCount > positiveCount then Styled(Negative)
    else Styled(Neutral)
  }

  /** The analysis of a text: lower-case it, split it on whitespace, count. */
  function AnalyzeText(text: string): Analysis {
    var words := Tokens(ToLower(text));
    Classify(CountIn(words, PositiveWords), CountIn(words, NegativeWords))
  }

  /** The body of the analysis timer: lower-case, split, count in one pass
      over the words, classify. */
  method Analyze(text: string) returns (a: Analysis)
    ensures a == AnalyzeText(text)
  {
    var words := Tokens(ToLower(text));
    var positiveCount, negativeCount := CountSentimentWords(words);
    a := Classify(positiveCount, negativeCount);
  }

  /** Lower-casing the joined words is joining the lower-cased words. */
  lemma {:induction false} LowerJoin(words: seq<string>, lower: seq<string>)
    requires |lower| == |words|
    requires forall k | 0 <= k < |words| :: ToLower(words[k]) == lower[k]
    ensures ToLower(JoinSpaced(words)) == JoinSpaced(lower)
    decreases |words|
  {
    if |words| > 1 {
      var rest := JoinSpaced(words[1..]);
      LowerJoin(words[1..], lower[1..]);
      assert ToLower(" ") == " ";
      LowerAppend(words[0], " ");
      LowerAppend(words[0] + " ", rest);
    }
  }

  /** Splitting the lower-cased text of words joined by single spaces gives
      the lower-cased words. */
  lemma LowerWords(words: seq<string>, lower: seq<string>)
    requires |words| >= 1 && PlainWords(words) && LowerForms(words, lower)
    ensures Tokens(ToLower(JoinSpaced(words))) == lower
  {
    LowerJoin(words, lower);
    forall k | 0 <= k < |lower|
      ensures |lower[k]| > 0 && NoSpace(lower[k])
    {
      assert ToLower(words[k]) == lower[k];
    }
    TokensOfJoin(lower);
  }

  lemma LowerAppend(a: string, b: string)
    ensures ToLower(a + b) == ToLower(a) + ToLower(b)
  {
    assert forall i | 0 <= i < |a + b| :: ToLower(a + b)[i] == (ToLower(a) + ToLower(b))[i];
  }

  lemma CountInSnoc(words: seq<string>, w: string, list: seq<string>)
    ensures CountIn(words + [w], list) == CountIn(words, list) + (if w in list then 1 else 0)
  {
    assert (words + [w])[..|words|] == words;
  }

  /** A list none of whose words is listed counts zero. */
  lemma {:induction false} CountNone(words: seq<string>, list: seq<string>)
    requires forall k | 0 <= k < |words| :: words[k] !in list
    ensures CountIn(words, list) == 0
  {
    if words != [] {
      CountNone(words[..|words| - 1], list);
    }
  }

  /** Non-empty words without whitespace. */
  predicate PlainWords(words: seq<string>) {
    forall k | 0 <= k < |words| :: |words[k]| > 0 && NoSpace(words[k])
  }

  /** `lower` holds the lower-cased forms of `words`. */
  predicate LowerForms(words: seq<string>, lower: seq<string>) {
    |lower| == |words| && forall k | 0 <= k < |words| :: ToLower(words[k]) == lower[k]
  }

  /** The analysis of words joined by single spaces is decided by the
      counts over their lower-cased forms. */
  lemma AnalyzeJoined(words: seq<string>, lower: seq<string>)
    requires |words| >= 1 && PlainWords(words) && LowerForms(words, lower)
    ensures AnalyzeText(JoinSpaced(words)) == Classify(CountIn(lower, PositiveWords), CountIn(lower, NegativeWords))
  {
    LowerWords(words, lower);
  }

  /** One saved journal entry. */
  datatype JournalEntry = JournalEntry(date: string, text: string, analysis: Option<Analysis>)

  /** The journal's state: the draft, the analysis shown for it, the busy
      flag of the analyse button, the text the pending analysis timer was
      scheduled for, and the `journalEntries` collection. */
  class JournalEditor {
    var draft: string
    var analysis: Option<Analysis>
    var analyzing: bool
    var pending: Option<string>
    var stored: seq<JournalEntry>

    /** The button is busy exactly while a timer is pending, and a timer is
        only ever scheduled for a text that is not all whitespace, that is
        (by `BlankIffAllSpace`) not blank. */
    ghost predicate Valid()
      reads this
    {
      && (analyzing <==> pending.Some?)
      && (pending.Some? ==> !AllSpace(pending.value))
    }

    constructor (saved: seq<JournalEntry>)
      ensures Valid()
      ensures draft == [] && analysis == None && !analyzing && pending == None && stored == saved
    {
      draft := [];
      analysis := None;
      analyzing := false;
      pending := None;
      stored := saved;
    }

    /** The text area's change handler. */
    method EditDraft(text: string)
      requires Valid()
      modifies this
      ensures Valid()
      ensures draft == text
      ensures analysis == old(analysis) && analyzing == old(analyzing) && pending == old(pending)
      ensures stored == old(stored)
    {
      draft := text;
    }

    /** The synchronous part of `analyzeEmotion`, reachable only while the
        button is enabled: a blank draft is refused; otherwise the old
        analysis is cleared, the button shows busy and a timer is scheduled
        for the draft as it is now. */
    method RequestAnalysis() returns (ok: bool)
      requires Valid() && !analyzing
      modifies this
      ensures Valid()
      ensures ok <==> !IsBlank(old(draft))
      ensures !ok ==> analysis == old(analysis) && !analyzing && pending == None
      ensures ok ==> analysis == None && analyzing && pending == Some(old(draft))
      ensures draft == old(draft) && stored == old(stored)
    {
      if IsBlank(draft) {
        return false;
      }
      BlankIffAllSpace(draft);
      analyzing := true;
      analysis := None;
      pending := Some(draft);
      return true;
    }

    /** The delayed part of `analyzeEmotion`: the pending timer fires and
        analyses the text it was scheduled for. */
    method CompleteAnalysis()
      requires Valid() && pending.Some?
      modifies this
      ensures Valid()
      ensures analysis == Some(AnalyzeText(old(pending).value)) && !analyzing && pending == None
      ensures draft == old(draft) && stored == old(stored)
    {
      var result := Analyze(pending.value);
      analysis := Some(result);
      analyzing := false;
      pending := None;
    }

    /** `saveEntry`, with the current time passed in as an ISO timestamp: a
        blank draft is refused; otherwise one entry is appended and the
        draft and analysis are cleared. */
    method SaveEntry(nowIso: string) returns (ok: bool)
      requires Valid()
      modifies this
      ensures Valid()
      ensures ok <==> !IsBlank(old(draft))
      ensures !ok ==> draft == old(draft) && analysis == old(analysis) && stored == old(stored)
      ensures ok ==> stored == old(stored) + [JournalEntry(nowIso, old(draft), old(analysis))]
      ensures ok ==> draft == [] && analysis == None
      ensures analyzing == old(analyzing) && pending == old(pending)
    {
      if IsBlank(draft) {
        return false;
      }
      var entry := JournalEntry(nowIso, draft, analysis);
      var entries := stored;
      entries := entries + [entry];
      stored := entries;
      draft := [];
      analysis := None;
      return true;
    }
  }
}
