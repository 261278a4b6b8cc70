/** The reviews tab: the accessible label of the review summary, such as
    "4.5 out of 5, from 1,234 reviews", is cut into a rating text and a
    review count. */
module Reviews {
  import opened Wrappers
  import opened JsString
  import opened JsNumber

  /** The rating: the literal 0 when no label was found, otherwise the
      text before "out" (its `parseFloat` is not part of this model). */
  datatype Rating = DefaultRating | RatingText(text: string)

  datatype ReviewSummary = ReviewSummary(rating: Rating, reviews: Number)

  /** `label.substring(0, label.indexOf('out')).trim()`: the trimmed text
      before the first "out", and empty when there is no "out" (ECMAScript
      turns the -1 end into 0). */
  function RatingTextOf(ariaLabel: string): (r: string)
    ensures IndexOf(ariaLabel, "out") == -1 ==> r == ""
    ensures IndexOf(ariaLabel, "out") >= 0 ==> r == Trim(ariaLabel[..IndexOf(ariaLabel, "out")])
  {
    Trim(Substring(ariaLabel, 0, IndexOf(ariaLabel, "out")))
  }

  /** `label.substring(label.indexOf('from')).replace('from', '')`: the
      text after the first "from", or the whole label when it holds no
      "from" (`substring(-1)` is the whole string, and `replace` then finds
      nothing). */
  function AfterFirstFrom(ariaLabel: string): (r: string)
    ensures IndexOf(ariaLabel, "from") >= 0 ==> r == ariaLabel[IndexOf(ariaLabel, "from") + 4..]
    ensures IndexOf(ariaLabel, "from") == -1 ==> r == ariaLabel
    ensures r == RemoveFirst(Substring(ariaLabel, IndexOf(ariaLabel, "from"), |ariaLabel|), "from")
  {
    var i := IndexOf(ariaLabel, "from");
    var suffix := Substring(ariaLabel, i, |ariaLabel|);
    assert RemoveFirst(suffix, "from") == if i < 0 then ariaLabel else ariaLabel[i + 4..] by {
      if i >= 0 {
        RemoveLeading(suffix, "from");
      }
    }
    if i < 0 then ariaLabel else ariaLabel[i + 4..]
  }

  /** The count text: the suffix from the first "from" (the whole label
      when there is none), with the first "from", the first "reviews" and
      the first "," removed, then trimmed. That is the text after the
      first "from" with the first "reviews" and the first "," removed. */
  function CountTextOf(ariaLabel: string): (r: string)
    ensures r == Trim(RemoveFirst(RemoveFirst(AfterFirstFrom(ariaLabel), "reviews"), ","))
  {
    var suffix := Substring(ariaLabel, IndexOf(ariaLabel, "from"), |ariaLabel|);
    Trim(RemoveFirst(RemoveFirst(RemoveFirst(suffix, "from"), "reviews"), ","))
  }

  /** Both values are 0 without a label (a missing attribute
      and an empty one alike, through `|| undefined` and `if (reviewText)`);
      otherwise the rating text and `parseInt` of the count text. */
  function Summarize(ariaLabel: Option<string>): (r: ReviewSummary)
    ensures ariaLabel.None? || ariaLabel == Some("") ==> r == ReviewSummary(DefaultRating, Finite(0.0))
    ensures ariaLabel.Some? && ariaLabel.value != "" ==>
              r.rating == RatingText(RatingTextOf(ariaLabel.value))
    ensures r.reviews.Finite? ==> r.reviews.value == r.reviews.value.Floor as real
  {
    match ariaLabel
    case None => ReviewSummary(DefaultRating, Finite(0.0))
    case Some(text) =>
      if text == "" then ReviewSummary(DefaultRating, Finite(0.0))
      else ReviewSummary(RatingText(RatingTextOf(text)), ParseInt(CountTextOf(text)))
  }

  /** For a non-empty label `text`, the review count is the value of the
      leading digits of the count text, whatever follows them. */
  lemma ReviewCountIsLeadingDigits(text: string, digits: string, rest: string)
    requires text != ""
    requires CountTextOf(text) == digits + rest
    requires |digits| > 0 && AllDigits(digits)
    requires |rest| > 0 ==> !IsDigit(rest[0])
    ensures Summarize(Some(text)).reviews == Finite(DigitsValue(digits) as real)
  {
    assert Summarize(Some(text)).reviews == ParseInt(CountTextOf(text));
    ParseIntLeadingDigits(digits, rest);
  }
}
