/** Review labels of the form Google Travel gives them,
    "<rating> out of 5, from <count> reviews", and what the extractor reads
    from them: the rating text, and a review count from which only the
    first thousands separator is removed. */
module ReviewLabels {
  import opened Wrappers
  import opened Sequences
  import opened JsString
  import opened JsNumber
  import opened Reviews

  /** The label "<rating> out of 5, from <count> reviews". It is spelled
      in the pieces the proofs below cut it at: the space before "out",
      the 'f' of "of" (a near miss for "from"), and the "from" itself. */
  function Label(rating: string, count: string): string {
    rating + " " + "out" + " o" + "f" + " 5, " + "from" + " " + count + " " + "reviews"
  }

  /** A review count as displayed: digits and thousands separators. */
  predicate AllCountChars(s: string) {
    forall i :: 0 <= i < |s| ==> IsDigit(s[i]) || s[i] == ','
  }

  /** The text after "from": the count between two spaces, then "reviews". */
  function CountPart(count: string): string {
    " " + count + " " + "reviews"
  }

  lemma LabelAroundOut(rating: string, count: string)
    ensures Label(rating, count) == rating + " " + "out" + (" o" + "f" + " 5, " + "from" + CountPart(count))
  {
  }

  lemma LabelAroundFrom(rating: string, count: string)
    ensures Label(rating, count) == rating + " " + "out" + " o" + ['f'] + " 5, " + "from" + CountPart(count)
  {
    assert "f" == ['f'];
  }

  /** The rating text of a label is the rating it was built from. */
  lemma RatingOfLabel(rating: string, count: string)
    requires |rating| > 0 && AllPriceChars(rating)
    ensures RatingTextOf(Label(rating, count)) == rating
  {
    var s := Label(rating, count);
    assert 'o' !in rating by {
      forall i | 0 <= i < |rating|
        ensures rating[i] != 'o'
      {
        assert IsPriceChar(rating[i]);
      }
    }
    LabelAroundOut(rating, count);
    IndexOfJoined(rating + " ", "out", " o" + "f" + " 5, " + "from" + CountPart(count));
    assert s[..|rating| + 1] == rating + " ";
    assert IsPriceChar(rating[0]) && IsPriceChar(rating[|rating| - 1]);
    TrimJoined("", rating, " ");
    assert "" + rating + " " == rating + " ";
  }

  /** Everything after the first "from" of a label is its count part: the
      'f' of "of" before it is followed by a space. */
  lemma AfterFromOfLabel(rating: string, count: string)
    requires AllPriceChars(rating)
    ensures AfterFirstFrom(Label(rating, count)) == CountPart(count)
  {
    var a := rating + " " + "out" + " o";
    assert 'f' !in rating by {
      forall i | 0 <= i < |rating|
        ensures rating[i] != 'f'
      {
        assert IsPriceChar(rating[i]);
      }
    }
    assert 'f' !in a;
    LabelAroundFrom(rating, count);
    IndexOfJoinedNear(a, 'f', " 5, ", "from", CountPart(count));
    var s := Label(rating, count);
    var i := |a| + 1 + 4;
    assert s[i + 4..] == CountPart(count);
  }

  /** The count part loses its "reviews" and keeps the count between two
      spaces. */
  lemma StripReviews(count: string)
    requires AllCountChars(count)
    ensures RemoveFirst(CountPart(count), "reviews") == " " + count + " "
  {
    assert 'r' !in count by {
      forall i | 0 <= i < |count|
        ensures count[i] != 'r'
      {
        assert IsDigit(count[i]) || count[i] == ',';
      }
    }
    RemoveFirstJoined(" " + count + " ", "reviews", "");
    assert CountPart(count) == " " + count + " " + "reviews" + "";
    assert " " + count + " " + "" == " " + count + " ";
  }

  /** The count text of a label: its count with the first separator
      removed, trimmed. */
  lemma CountTextOfLabel(rating: string, count: string)
    requires AllPriceChars(rating) && AllCountChars(count)
    ensures CountTextOf(Label(rating, count)) == Trim(RemoveFirst(" " + count + " ", ","))
  {
    AfterFromOfLabel(rating, count);
    StripReviews(count);
  }

  /** A count without separators survives the cleanup unchanged. */
  lemma CleanUngrouped(d: string)
    requires |d| > 0 && AllDigits(d)
    ensures Trim(RemoveFirst(" " + d + " ", ",")) == d
  {
    assert ',' !in " " + d + " " by {
      forall i | 0 <= i < |d|
        ensures d[i] != ','
      {
        assert IsDigit(d[i]);
      }
    }
    RemoveFirstAbsent(" " + d + " ", ",");
    TrimJoined(" ", d, " ");
  }

  /** A count without separators is read whole. */
  lemma CountTextUngrouped(rating: string, d: string)
    requires AllPriceChars(rating) && |d| > 0 && AllDigits(d)
    ensures CountTextOf(Label(rating, d)) == d
  {
    assert AllCountChars(d);
    CountTextOfLabel(rating, d);
    CleanUngrouped(d);
  }

  /** `d1` joined to `rest` by a separator is a count. */
  lemma GroupedIsCount(d1: string, rest: string)
    requires AllDigits(d1) && AllCountChars(rest)
    ensures AllCountChars(d1 + "," + rest)
  {
    var count := d1 + "," + rest;
    forall i | 0 <= i < |count|
      ensures IsDigit(count[i]) || count[i] == ','
    {
      if i < |d1| {
        assert count[i] == d1[i];
      } else if i > |d1| {
        assert count[i] == rest[i - |d1| - 1];
      }
    }
  }

  /** Removing the first separator of a count between two spaces. */
  lemma RemoveFirstSeparator(d1: string, rest: string)
    requires AllDigits(d1)
    ensures RemoveFirst(" " + (d1 + "," + rest) + " ", ",") == " " + (d1 + rest) + " "
  {
    assert ',' !in " " + d1 by {
      forall i | 0 <= i < |d1|
        ensures d1[i] != ','
      {
        assert IsDigit(d1[i]);
      }
    }
    assert " " + (d1 + "," + rest) + " " == " " + d1 + "," + (rest + " ");
    RemoveFirstJoined(" " + d1, ",", rest + " ");
    assert " " + d1 + (rest + " ") == " " + (d1 + rest) + " ";
  }

  /** A non-empty count has no white space at its ends. */
  lemma TrimCount(t: string)
    requires |t| > 0 && AllCountChars(t)
    ensures Trim(" " + t + " ") == t
  {
    assert IsDigit(t[0]) || t[0] == ',';
    assert IsDigit(t[|t| - 1]) || t[|t| - 1] == ',';
    TrimJoined(" ", t, " ");
  }

  /** Only the first separator of a count goes. */
  lemma CleanGrouped(d1: string, rest: string)
    requires |d1| > 0 && AllDigits(d1) && AllCountChars(rest)
    ensures Trim(RemoveFirst(" " + (d1 + "," + rest) + " ", ",")) == d1 + rest
  {
    RemoveFirstSeparator(d1, rest);
    var t := d1 + rest;
    assert AllCountChars(t) by {
      forall i | 0 <= i < |t|
        ensures IsDigit(t[i]) || t[i] == ','
      {
        if i < |d1| {
          assert t[i] == d1[i];
        } else {
          assert t[i] == rest[i - |d1|];
        }
      }
    }
    TrimCount(t);
  }

  /** With separators, only the first goes: `d1,rest` becomes `d1rest`. */
  lemma CountTextGrouped(rating: string, d1: string, rest: string)
    requires AllPriceChars(rating) && |d1| > 0 && AllDigits(d1) && AllCountChars(rest)
    ensures AllCountChars(d1 + "," + rest)
    ensures CountTextOf(Label(rating, d1 + "," + rest)) == d1 + rest
  {
    GroupedIsCount(d1, rest);
    CountTextOfLabel(rating, d1 + "," + rest);
    CleanGrouped(d1, rest);
  }

  /** A non-empty label is summarized by its rating text and the
      `parseInt` of its count text. */
  lemma SummarizeBy(s: string, rating: string, count: string)
    requires s != "" && RatingTextOf(s) == rating && CountTextOf(s) == count
    ensures Summarize(Some(s)) == ReviewSummary(RatingText(rating), ParseInt(count))
  {
  }

  lemma LabelNotEmpty(rating: string, count: string)
    ensures Label(rating, count) != ""
  {
    assert |Label(rating, count)| > 0;
  }

  /** "<rating> out of 5, from <d> reviews" summarizes as the rating text
      and the value of `d`. */
  lemma SummarizeUngrouped(rating: string, d: string)
    requires |rating| > 0 && AllPriceChars(rating) && |d| > 0 && AllDigits(d)
    ensures Summarize(Some(Label(rating, d)))
            == ReviewSummary(RatingText(rating), Finite(DigitsValue(d) as real))
  {
    RatingOfLabel(rating, d);
    CountTextUngrouped(rating, d);
    LabelNotEmpty(rating, d);
    SummarizeBy(Label(rating, d), rating, d);
    ParseIntDigits(d);
  }

  lemma ParseIntDigits(d: string)
    requires |d| > 0 && AllDigits(d)
    ensures ParseInt(d) == Finite(DigitsValue(d) as real)
  {
    ParseIntLeadingDigits(d, "");
    assert d + "" == d;
  }

  /** The number displayed as `d1,d2`. */
  function GroupedValue(d1: string, d2: string): nat
    requires AllDigits(d1) && AllDigits(d2)
  {
    DigitsValue(d1) * Pow10(|d2|) + DigitsValue(d2)
  }

  /** Digits `d1` then `d2` read as `d1,d2` displays. */
  lemma ParseIntJoined(d1: string, d2: string)
    requires |d1| > 0 && AllDigits(d1) && AllDigits(d2)
    ensures ParseInt(d1 + d2) == Finite(GroupedValue(d1, d2) as real)
  {
    DigitsValueAppend(d1, d2);
    ParseIntDigits(d1 + d2);
  }

  /** With one separator, `d1,d2` is read as the number it displays. */
  lemma SummarizeOneSeparator(rating: string, d1: string, d2: string)
    requires |rating| > 0 && AllPriceChars(rating)
    requires |d1| > 0 && AllDigits(d1) && AllDigits(d2)
    ensures Summarize(Some(Label(rating, d1 + "," + d2)))
            == ReviewSummary(RatingText(rating), Finite(GroupedValue(d1, d2) as real))
  {
    assert AllCountChars(d2);
    RatingOfLabel(rating, d1 + "," + d2);
    CountTextGrouped(rating, d1, d2);
    LabelNotEmpty(rating, d1 + "," + d2);
    SummarizeBy(Label(rating, d1 + "," + d2), rating, d1 + d2);
    ParseIntJoined(d1, d2);
  }

  /** A count with a second separator reads up to that separator. */
  lemma ParseIntTwoGroups(d1: string, d2: string, d3: string)
    requires |d1| > 0 && AllDigits(d1) && AllDigits(d2)
    ensures ParseInt(d1 + (d2 + ("," + d3))) == Finite(GroupedValue(d1, d2) as real)
  {
    DigitsValueAppend(d1, d2);
    Regroup(d1, d2, "," + d3);
    ParseIntLeadingDigits(d1 + d2, "," + d3);
  }

  /** With two separators, `d1,d2,d3` is read as `d1d2`: the second
      separator stays in the count text and `parseInt` stops there, so the
      group `d3` is lost. */
  lemma SummarizeTwoSeparators(rating: string, d1: string, d2: string, d3: string)
    requires |rating| > 0 && AllPriceChars(rating)
    requires |d1| > 0 && AllDigits(d1) && AllDigits(d2) && AllDigits(d3)
    ensures Summarize(Some(Label(rating, d1 + "," + d2 + "," + d3))).reviews
            == Finite(GroupedValue(d1, d2) as real)
  {
    var rest := d2 + ("," + d3);
    assert AllCountChars(d2) && AllCountChars(d3);
    GroupedIsCount(d2, d3);
    Regroup(d2, ",", d3);
    Regroup(d1 + ",", d2 + ",", d3);
    Regroup(d1 + ",", d2, ",");
    RatingOfLabel(rating, d1 + "," + rest);
    CountTextGrouped(rating, d1, rest);
    LabelNotEmpty(rating, d1 + "," + rest);
    SummarizeBy(Label(rating, d1 + "," + rest), rating, d1 + rest);
    ParseIntTwoGroups(d1, d2, d3);
  }

  /** "4.5 out of 5, from 1,234 reviews" gives rating text "4.5" and 1234
      reviews. */
  lemma SummarizeUsual()
    ensures Summarize(Some(Label("4.5", "1" + "," + "234")))
            == ReviewSummary(RatingText("4.5"), Finite(1234.0))
  {
    assert AllPriceChars("4.5");
    DigitsOf234();
    SummarizeOneSeparator("4.5", "1", "234");
  }

  /** "4.6 out of 5, from 1,234,567 reviews" gives 1234 reviews. */
  lemma SummarizeMillionReadsPrefix()
    ensures Summarize(Some(Label("4.6", "1" + "," + "234" + "," + "567"))).reviews == Finite(1234.0)
  {
    assert AllPriceChars("4.6");
    assert AllDigits("567");
    DigitsOf234();
    SummarizeTwoSeparators("4.6", "1", "234", "567");
  }

  lemma DigitsOf234()
    ensures AllDigits("1") && AllDigits("234")
    ensures DigitsValue("1") == 1 && DigitsValue("234") == 234 && Pow10(|"234"|) == 1000
  {
    assert "1"[..0] == "";
    assert "234"[..2] == "23";
    assert "23"[..1] == "2";
    assert "2"[..0] == "";
  }
}
