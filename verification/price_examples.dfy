/** Worked price rows: the cleanup of a typical price text, and the
    de-duplication of a provider listed twice. */
module PriceExamples {
  import opened Wrappers
  import opened Sequences
  import opened JsNumber
  import opened PriceRows

  /** A price shown as `<currency><d1>,<amount><suffix>`, where the
      currency sign and the suffix hold no digit or dot, cleans to the
      digits and dot of the amount with the separator gone. */
  lemma CleanGroupedPrice(currency: string, d1: string, amount: string, suffix: string)
    requires forall i :: 0 <= i < |currency| ==> !IsPriceChar(currency[i])
    requires forall i :: 0 <= i < |suffix| ==> !IsPriceChar(suffix[i])
    requires AllPriceChars(d1) && AllPriceChars(amount)
    ensures CleanPriceText(currency + d1 + "," + amount + suffix) == d1 + amount
  {
    var t := "," + amount + suffix;
    SplitAfter(currency + d1, ",", amount, suffix);
    CleanDropKeep(currency, d1, t);
    CleanSeparatedAmount(amount, suffix);
  }

  lemma SplitAfter(x: string, sep: string, amount: string, suffix: string)
    ensures x + sep + amount + suffix == x + (sep + amount + suffix)
  {
    Regroup(x + sep, amount, suffix);
    Regroup(x, sep, amount + suffix);
    Regroup(sep, amount, suffix);
  }

  /** The separator goes and so does the suffix. */
  lemma CleanSeparatedAmount(amount: string, suffix: string)
    requires forall i :: 0 <= i < |suffix| ==> !IsPriceChar(suffix[i])
    requires AllPriceChars(amount)
    ensures CleanPriceText("," + amount + suffix) == amount
  {
    CleanDropKeep(",", amount, suffix);
    CleanPriceTextNone(suffix);
    assert amount + "" == amount;
  }

  /** "$1,234.50/night" is cleaned to "1234.50". */
  lemma CleanTypicalPrice()
    ensures CleanPriceText("$" + "1" + "," + "234.50" + "/night") == "1234.50"
  {
    assert !IsPriceChar('$');
    assert forall c :: c in "/night" ==> !IsPriceChar(c);
    CleanGroupedPrice("$", "1", "234.50", "/night");
    assert "1" + "234.50" == "1234.50";
  }

  /** Text to drop, then clean text, then the rest. */
  lemma CleanDropKeep(drop: string, keep: string, rest: string)
    requires forall i :: 0 <= i < |drop| ==> !IsPriceChar(drop[i])
    requires AllPriceChars(keep)
    ensures CleanPriceText(drop + keep + rest) == keep + CleanPriceText(rest)
  {
    var tail := keep + rest;
    assert drop + keep + rest == drop + tail;
    CleanPriceTextAppend(drop, tail);
    CleanPriceTextNone(drop);
    CleanKeep(keep, rest);
    assert "" + CleanPriceText(tail) == CleanPriceText(tail);
  }

  /** Clean text, then the rest. */
  lemma CleanKeep(keep: string, rest: string)
    requires AllPriceChars(keep)
    ensures CleanPriceText(keep + rest) == keep + CleanPriceText(rest)
  {
    CleanPriceTextAppend(keep, rest);
    CleanPriceTextOfClean(keep);
  }

  /** "1234.50" reads as 1234.5. */
  lemma ParseTypicalPrice()
    ensures ParseDecimal("1234.50") == Finite(1234.5)
  {
    var s := "1234.50";
    DigitRunOfDigits("1234", ".50");
    assert "1234" + ".50" == s;
    assert s[..4] == "1234";
    assert s[5..] == "50";
    DigitRunOfDigits("50", "");
    assert "50" + "" == "50";
    assert "50"[..2] == "50";
    assert DigitsValue("1234") == 1234 by {
      assert "1234"[..3] == "123";
      assert "123"[..2] == "12";
      assert "12"[..1] == "1";
      assert "1"[..0] == "";
    }
    assert DigitsValue("50") == 50 by {
      assert "50"[..1] == "5";
      assert "5"[..0] == "";
    }
    assert Pow10(2) == 100;
  }

  const A100: Price := Price("A", Finite(100.0), TravelOrigin + "/a")
  const B120: Price := Price("B", Finite(120.0), TravelOrigin + "/b")
  const A150: Price := Price("A", Finite(150.0), TravelOrigin + "/a2")

  /** Provider A listed again after B, with a null row between: the second
      A entry is dropped and the order is kept. */
  lemma DeduplicateRepeatedProvider()
    ensures Deduplicate([Some(A100), None, Some(B120), Some(A150)]) == [A100, B120]
  {
    var rows := [Some(A100), None, Some(B120), Some(A150)];
    DeduplicateIsFirstPerProvider(rows);
    var r3: seq<Option<Price>> := [Some(A150)];
    var r2 := [Some(B120)] + r3;
    var r1 := [None] + r2;
    assert rows == [Some(A100)] + r1;
    assert FirstPerProvider(r3, {"A", "B"}) == [] by {
      assert r3[1..] == [];
    }
    assert FirstPerProvider(r2, {"A"}) == [B120] by {
      assert r2[1..] == r3;
      assert {"A"} + {"B"} == {"A", "B"};
    }
    assert FirstPerProvider(r1, {"A"}) == [B120] by {
      assert r1[1..] == r2;
    }
    assert FirstPerProvider(rows, {}) == [A100, B120] by {
      assert rows[1..] == r1;
      assert {} + {"A"} == {"A"};
    }
  }
}
