/** Three sample sentences and the label the journal's analysis gives
    each. Every sentence is plain words separated by single spaces, so the
    general lemma `Journal.AnalyzeJoined` reduces it to two counts. */
module JournalSamples {
  import opened Text
  import opened Journal

  /** A word of lower-case ASCII letters has no whitespace and is its own
      lower-case form. */
  lemma LowerWord(w: string)
    requires forall i | 0 <= i < |w| :: 'a' <= w[i] <= 'z'
    ensures NoSpace(w) && ToLower(w) == w
  {
  }

  lemma JoinCons(w: string, ws: seq<string>)
    requires |ws| >= 1
    ensures JoinSpaced([w] + ws) == w + " " + JoinSpaced(ws)
  {
    assert ([w] + ws)[1..] == ws;
  }

  /** Two positive words and no negative one: Positive. */
  lemma PositiveSample()
    ensures AnalyzeText("I am happy and grateful").sentiment == Positive
  {
    PositiveSampleJoin();
    PositiveSampleWords();
    PositiveSamplePositiveCount();
    PositiveSampleNegativeCount();
    AnalyzeJoined(["I", "am", "happy", "and", "grateful"], ["i", "am", "happy", "and", "grateful"]);
  }

  lemma PositiveSampleJoin()
    ensures JoinSpaced(["I", "am", "happy", "and", "grateful"]) == "I am happy and grateful"
  {
    JoinCons("and", ["grateful"]);
    assert ["and"] + ["grateful"] == ["and", "grateful"];
    JoinCons("happy", ["and", "grateful"]);
    assert ["happy"] + ["and", "grateful"] == ["happy", "and", "grateful"];
    JoinCons("am", ["happy", "and", "grateful"]);
    assert ["am"] + ["happy", "and", "grateful"] == ["am", "happy", "and", "grateful"];
    JoinCons("I", ["am", "happy", "and", "grateful"]);
    assert ["I"] + ["am", "happy", "and", "grateful"] == ["I", "am", "happy", "and", "grateful"];
  }

  lemma PositiveSampleWords()
    ensures PlainWords(["I", "am", "happy", "and", "grateful"])
    ensures LowerForms(["I", "am", "happy", "and", "grateful"], ["i", "am", "happy", "and", "grateful"])
  {
    assert NoSpace("I") && ToLower("I") == "i";
    LowerWord("am");
    LowerWord("happy");
    LowerWord("and");
    LowerWord("grateful");
  }

  lemma PositiveSampleOpeningCount()
    ensures CountIn(["i", "am", "happy"], PositiveWords) == 1
  {
    assert CountIn(["i", "am"], PositiveWords) == 0 by {
      CountNone(["i", "am"], PositiveWords);
    }
    assert CountIn(["i", "am", "happy"], PositiveWords) == 1 by {
      CountInSnoc(["i", "am"], "happy", PositiveWords);
      assert ["i", "am"] + ["happy"] == ["i", "am", "happy"];
      assert "happy" in PositiveWords;
    }
  }

  lemma PositiveSamplePositiveCount()
    ensures CountIn(["i", "am", "happy", "and", "grateful"], PositiveWords) == 2
  {
    PositiveSampleOpeningCount();
    assert CountIn(["i", "am", "happy", "and"], PositiveWords) == 1 by {
      CountInSnoc(["i", "am", "happy"], "and", PositiveWords);
      assert ["i", "am", "happy"] + ["and"] == ["i", "am", "happy", "and"];
      assert "and" !in PositiveWords;
    }
    assert CountIn(["i", "am", "happy", "and", "grateful"], PositiveWords) == 2 by {
      CountInSnoc(["i", "am", "happy", "and"], "grateful", PositiveWords);
      assert ["i", "am", "happy", "and"] + ["grateful"] == ["i", "am", "happy", "and", "grateful"];
      assert "grateful" in PositiveWords;
    }
  }

  lemma PositiveSampleNegativeCount()
    ensures CountIn(["i", "am", "happy", "and", "grateful"], NegativeWords) == 0
  {
    CountNone(["i", "am", "happy", "and", "grateful"], NegativeWords);
  }

  /** Two negative words and no positive one: Negative. */
  lemma NegativeSample()
    ensures AnalyzeText("I feel sad and anxious").sentiment == Negative
  {
    NegativeSampleJoin();
    NegativeSampleWords();
    NegativeSamplePositiveCount();
    NegativeSampleNegativeCount();
    AnalyzeJoined(["I", "feel", "sad", "and", "anxious"], ["i", "feel", "sad", "and", "anxious"]);
  }

  lemma NegativeSampleJoin()
    ensures JoinSpaced(["I", "feel", "sad", "and", "anxious"]) == "I feel sad and anxious"
  {
    JoinCons("and", ["anxious"]);
    assert ["and"] + ["anxious"] == ["and", "anxious"];
    JoinCons("sad", ["and", "anxious"]);
    assert ["sad"] + ["and", "anxious"] == ["sad", "and", "anxious"];
    JoinCons("feel", ["sad", "and", "anxious"]);
    assert ["feel"] + ["sad", "and", "anxious"] == ["feel", "sad", "and", "anxious"];
    JoinCons("I", ["feel", "sad", "and", "anxious"]);
    assert ["I"] + ["feel", "sad", "and", "anxious"] == ["I", "feel", "sad", "and", "anxious"];
  }

  lemma NegativeSampleWords()
    ensures PlainWords(["I", "feel", "sad", "and", "anxious"])
    ensures LowerForms(["I", "feel", "sad", "and", "anxious"], ["i", "feel", "sad", "and", "anxious"])
  {
    assert NoSpace("I") && ToLower("I") == "i";
    LowerWord("feel");
    LowerWord("sad");
    LowerWord("and");
    LowerWord("anxious");
  }

  lemma NegativeSamplePositiveCount()
    ensures CountIn(["i", "feel", "sad", "and", "anxious"], PositiveWords) == 0
  {
    CountNone(["i", "feel", "sad", "and", "anxious"], PositiveWords);
  }

  lemma NegativeSampleOpeningCount()
    ensures CountIn(["i", "feel", "sad"], NegativeWords) == 1
  {
    assert CountIn(["i", "feel"], NegativeWords) == 0 by {
      CountNone(["i", "feel"], NegativeWords);
    }
    assert CountIn(["i", "feel", "sad"], NegativeWords) == 1 by {
      CountInSnoc(["i", "feel"], "sad", NegativeWords);
      assert ["i", "feel"] + ["sad"] == ["i", "feel", "sad"];
      assert "sad" in NegativeWords;
    }
  }

  lemma NegativeSampleNegativeCount()
    ensures CountIn(["i", "feel", "sad", "and", "anxious"], NegativeWords) == 2
  {
    NegativeSampleOpeningCount();
    assert CountIn(["i", "feel", "sad", "and"], NegativeWords) == 1 by {
      CountInSnoc(["i", "feel", "sad"], "and", NegativeWords);
      assert ["i", "feel", "sad"] + ["and"] == ["i", "feel", "sad", "and"];
      assert "and" !in NegativeWords;
    }
    assert CountIn(["i", "feel", "sad", "and", "anxious"], NegativeWords) == 2 by {
      CountInSnoc(["i", "feel", "sad", "and"], "anxious", NegativeWords);
      assert ["i", "feel", "sad", "and"] + ["anxious"] == ["i", "feel", "sad", "and", "anxious"];
      assert "anxious" in NegativeWords;
    }
  }

  /** No listed word at all: Neutral. */
  lemma NeutralSample()
    ensures AnalyzeText("The weather is cloudy").sentiment == Neutral
  {
    NeutralSampleJoin();
    NeutralSampleWords();
    NeutralSamplePositiveCount();
    NeutralSampleNegativeCount();
    AnalyzeJoined(["The", "weather", "is", "cloudy"], ["the", "weather", "is", "cloudy"]);
  }

  lemma NeutralSampleJoin()
    ensures JoinSpaced(["The", "weather", "is", "cloudy"]) == "The weather is cloudy"
  {
    JoinCons("is", ["cloudy"]);
    assert ["is"] + ["cloudy"] == ["is", "cloudy"];
    JoinCons("weather", ["is", "cloudy"]);
    assert ["weather"] + ["is", "cloudy"] == ["weather", "is", "cloudy"];
    JoinCons("The", ["weather", "is", "cloudy"]);
    assert ["The"] + ["weather", "is", "cloudy"] == ["The", "weather", "is", "cloudy"];
  }

  lemma NeutralSampleWords()
    ensures PlainWords(["The", "weather", "is", "cloudy"])
    ensures LowerForms(["The", "weather", "is", "cloudy"], ["the", "weather", "is", "cloudy"])
  {
    assert NoSpace("The") && ToLower("The") == "the";
    LowerWord("weather");
    LowerWord("is");
    LowerWord("cloudy");
  }

  lemma NeutralSamplePositiveCount()
    ensures CountIn(["the", "weather", "is", "cloudy"], PositiveWords) == 0
  {
    CountNone(["the", "weather", "is", "cloudy"], PositiveWords);
  }

  lemma NeutralSampleNegativeCount()
    ensures CountIn(["the", "weather", "is", "cloudy"], NegativeWords) == 0
  {
    CountNone(["the", "weather", "is", "cloudy"], NegativeWords);
  }
}
