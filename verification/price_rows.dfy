/** The price tab: each "Visit site" button yields a row result (a price
    entry, or null when the row has no link or its structure could not be
    read), and the row results are de-duplicated by provider. */
module PriceRows {
  import opened Wrappers
  import opened Sequences
  import opened JsString
  import opened JsNumber

  /** Origin put in front of a row's relative link. */
  const TravelOrigin: string := "https://www.google.co.in/travel"

  datatype Price = Price(provider: string, price: Number, link: string)

  /** The two texts read from a row's fixed sub-paths. */
  datatype RowCells = RowCells(providerText: string, priceText: string)

  /** What the page yields for one button: the `href` of the row's link
      wrapper (null when absent) and the two texts, or `None` when reading
      them failed (the rows with a different layout). */
  datatype PriceRow = PriceRow(href: Option<string>, cells: Option<RowCells>)

  /** `text.replace(/[^0-9.]/g, '')`: every character other than a digit
      or a dot is dropped. */
  function CleanPriceText(s: string): (r: string)
    ensures AllPriceChars(r)
    ensures |r| <= |s|
  {
    if |s| == 0 then ""
    else (if IsPriceChar(s[0]) then [s[0]] else []) + CleanPriceText(s[1..])
  }

  /** The cleaned text keeps the order of the characters it keeps. */
  lemma {:induction false} CleanPriceTextSubsequence(s: string)
    ensures IsSubsequence(CleanPriceText(s), s)
  {
    if |s| > 0 {
      CleanPriceTextSubsequence(s[1..]);
      assert s == [s[0]] + s[1..];
      if IsPriceChar(s[0]) {
        assert CleanPriceText(s) == [s[0]] + CleanPriceText(s[1..]);
        SubsequenceConsBoth(CleanPriceText(s[1..]), s[0], s[1..]);
      } else {
        assert CleanPriceText(s) == CleanPriceText(s[1..]);
        SubsequenceCons(CleanPriceText(s[1..]), s[0], s[1..]);
      }
    }
  }

  /** The cleaned text keeps every digit and every dot: each occurs in it
      as often as in the input. */
  lemma {:induction false} CleanPriceTextKeepsAll(s: string)
    ensures forall c :: IsPriceChar(c) ==> multiset(CleanPriceText(s))[c] == multiset(s)[c]
  {
    if |s| > 0 {
      CleanPriceTextKeepsAll(s[1..]);
      assert s == [s[0]] + s[1..];
      assert multiset(s) == multiset([s[0]]) + multiset(s[1..]);
    }
  }

  /** Text that is already clean is left as it is. */
  lemma {:induction false} CleanPriceTextOfClean(s: string)
    requires AllPriceChars(s)
    ensures CleanPriceText(s) == s
  {
    if |s| > 0 {
      CleanPriceTextOfClean(s[1..]);
      assert s == [s[0]] + s[1..];
    }
  }

  /** Cleaning works piece by piece: the cleanup of two joined texts is
      the two cleanups joined. */
  lemma {:induction false} CleanPriceTextAppend(a: string, b: string)
    ensures CleanPriceText(a + b) == CleanPriceText(a) + CleanPriceText(b)
  {
    if |a| > 0 {
      CleanPriceTextAppend(a[1..], b);
      assert (a + b)[1..] == a[1..] + b;
      assert (a + b)[0] == a[0];
    } else {
      assert a + b == b;
    }
  }

  /** Text without a digit or a dot cleans to nothing. */
  lemma {:induction false} CleanPriceTextNone(s: string)
    requires forall i :: 0 <= i < |s| ==> !IsPriceChar(s[i])
    ensures CleanPriceText(s) == ""
  {
    if |s| > 0 {
      CleanPriceTextNone(s[1..]);
    }
  }

  /** Cleaning is idempotent. */
  lemma CleanPriceTextIdempotent(s: string)
    ensures CleanPriceText(CleanPriceText(s)) == CleanPriceText(s)
  {
    CleanPriceTextOfClean(CleanPriceText(s));
  }

  /** The absolute provider link built from a row's relative `href`. */
  function ProviderLink(href: string): (link: string)
    ensures StartsWith(link, TravelOrigin)
    ensures link[|TravelOrigin|..] == href
  {
    TravelOrigin + href
  }

  /** The result of one row: null without a link or when the structural
      read failed, otherwise the provider text, the parsed cleaned price
      and the absolute link. */
  function ReadRow(row: PriceRow): (r: Option<Price>)
    ensures r.Some? <==> row.href.Some? && row.cells.Some?
    ensures r.Some? ==>
              && r.value.provider == row.cells.value.providerText
              && r.value.price == ParseDecimal(CleanPriceText(row.cells.value.priceText))
              && StartsWith(r.value.link, TravelOrigin)
              && r.value.link[|TravelOrigin|..] == row.href.value
  {
    match row.href
    case None => None
    case Some(href) =>
      match row.cells
      case None => None
      case Some(cells) =>
        Some(Price(cells.providerText, ParseDecimal(CleanPriceText(cells.priceText)), ProviderLink(href)))
  }

  /** The row results, in the order of the buttons on the page. */
  function ReadRows(rows: seq<PriceRow>): (r: seq<Option<Price>>)
    ensures |r| == |rows|
    ensures forall i :: 0 <= i < |rows| ==> r[i] == ReadRow(rows[i])
  {
    seq(|rows|, i requires 0 <= i < |rows| => ReadRow(rows[i]))
  }

  /** `o?.provider === provider`: a null slot never matches. */
  predicate HasProvider(o: Option<Price>, provider: string) {
    o.Some? && o.value.provider == provider
  }

  function FindProviderFrom(rows: seq<Option<Price>>, provider: string, i: nat): (r: int)
    requires i <= |rows|
    ensures r == -1 || (i <= r < |rows| && HasProvider(rows[r], provider))
    ensures forall j :: i <= j < |rows| && (r == -1 || j < r) ==> !HasProvider(rows[j], provider)
    decreases |rows| - i
  {
    if i == |rows| then -1
    else if HasProvider(rows[i], provider) then i
    else FindProviderFrom(rows, provider, i + 1)
  }

  /** `arr.findIndex(o => o?.provider === provider)`: the first slot
      holding an entry of `provider`, or -1. */
  function FindProvider(rows: seq<Option<Price>>, provider: string): (r: int)
    ensures r == -1 || (0 <= r < |rows| && HasProvider(rows[r], provider))
    ensures forall j :: 0 <= j < |rows| && (r == -1 || j < r) ==> !HasProvider(rows[j], provider)
  {
    FindProviderFrom(rows, provider, 0)
  }

  /** The filter's test for slot `i`: `price !== null &&
      arr.findIndex(...) === i`. */
  predicate Keeps(rows: seq<Option<Price>>, i: nat)
    requires i < |rows|
    ensures Keeps(rows, i) <==>
              rows[i].Some? && forall j :: 0 <= j < i ==> !HasProvider(rows[j], rows[i].value.provider)
  {
    rows[i].Some? && FindProvider(rows, rows[i].value.provider) == i
  }

  /** The filter applied to the slots from `i` on; every kept entry is the
      first entry of its provider in the whole array. */
  function DeduplicateFrom(rows: seq<Option<Price>>, i: nat): (r: seq<Price>)
    requires i <= |rows|
    ensures forall k :: 0 <= k < |r| ==>
              var j := FindProvider(rows, r[k].provider);
              i <= j < |rows| && rows[j] == Some(r[k])
    decreases |rows| - i
  {
    if i == |rows| then []
    else (if Keeps(rows, i) then [rows[i].value] else []) + DeduplicateFrom(rows, i + 1)
  }

  /** The `filter` over the row results: keep a non-null result only when
      it is the first one of its provider. */
  function Deduplicate(rows: seq<Option<Price>>): (r: seq<Price>)
    ensures forall k :: 0 <= k < |r| ==>
              var j := FindProvider(rows, r[k].provider);
              0 <= j < |rows| && rows[j] == Some(r[k])
  {
    DeduplicateFrom(rows, 0)
  }

  // ---------------------------------------------------------------------
  // Reference definition: one left-to-right pass remembering the
  // providers already emitted.

  /** "First occurrence per provider wins", written as a walk that skips
      null slots and providers in `seen`. */
  function FirstPerProvider(rows: seq<Option<Price>>, seen: set<string>): seq<Price>
  {
    if |rows| == 0 then []
    else match rows[0]
      case None => FirstPerProvider(rows[1..], seen)
      case Some(p) =>
        if p.provider in seen then FirstPerProvider(rows[1..], seen)
        else [p] + FirstPerProvider(rows[1..], seen + {p.provider})
  }

  /** Providers of the non-null slots before index `i`. */
  ghost function SeenBefore(rows: seq<Option<Price>>, i: nat): set<string>
    requires i <= |rows|
  {
    set j | 0 <= j < i && rows[j].Some? :: rows[j].value.provider
  }

  /** Providers of all non-null slots. */
  ghost function ProvidersOf(rows: seq<Option<Price>>): set<string>
  {
    SeenBefore(rows, |rows|)
  }

  /** Providers of a list of entries. */
  ghost function Providers(ps: seq<Price>): set<string>
  {
    set k | 0 <= k < |ps| :: ps[k].provider
  }

  /** No two entries share a provider. */
  ghost predicate UniqueProviders(ps: seq<Price>) {
    forall a, b :: 0 <= a < b < |ps| ==> ps[a].provider != ps[b].provider
  }

  /** The filter keeps slot `i` exactly when it holds an entry whose
      provider did not occur before. */
  lemma KeepsIffUnseen(rows: seq<Option<Price>>, i: nat)
    requires i < |rows|
    ensures Keeps(rows, i) <==> rows[i].Some? && rows[i].value.provider !in SeenBefore(rows, i)
  {
    if rows[i].Some? {
      var p := rows[i].value.provider;
      var r := FindProvider(rows, p);
      if p in SeenBefore(rows, i) {
        var j :| 0 <= j < i && rows[j].Some? && rows[j].value.provider == p;
        assert HasProvider(rows[j], p);
        assert r != i;
      } else {
        assert HasProvider(rows[i], p);
      }
    }
  }

  /** The literal filter from slot `i` on equals the walk over the rest,
      started with the providers seen before `i`. */
  lemma {:induction false} DeduplicateFromIsWalk(rows: seq<Option<Price>>, i: nat)
    requires i <= |rows|
    ensures DeduplicateFrom(rows, i) == FirstPerProvider(rows[i..], SeenBefore(rows, i))
    decreases |rows| - i
  {
    if i < |rows| {
      DeduplicateFromIsWalk(rows, i + 1);
      KeepsIffUnseen(rows, i);
      assert rows[i..][0] == rows[i];
      assert rows[i..][1..] == rows[i + 1..];
      if rows[i].Some? {
        var p := rows[i].value;
        var seen := SeenBefore(rows, i);
        assert SeenBefore(rows, i + 1) == seen + {p.provider};
        if p.provider in seen {
          assert seen + {p.provider} == seen;
          assert !Keeps(rows, i);
          assert FirstPerProvider(rows[i..], seen) == FirstPerProvider(rows[i + 1..], seen);
        } else {
          assert FirstPerProvider(rows[i..], seen)
              == [p] + FirstPerProvider(rows[i + 1..], seen + {p.provider});
        }
      } else {
        assert SeenBefore(rows, i + 1) == SeenBefore(rows, i);
      }
    }
  }

  /** The findIndex filter is "first occurrence per provider wins". */
  lemma DeduplicateIsFirstPerProvider(rows: seq<Option<Price>>)
    ensures Deduplicate(rows) == FirstPerProvider(rows, {})
  {
    DeduplicateFromIsWalk(rows, 0);
    assert rows[0..] == rows;
    assert SeenBefore(rows, 0) == {};
  }

  /** Providers of the non-null slots: those of the first slot and of
      the rest. */
  lemma ProvidersOfCons(rows: seq<Option<Price>>)
    requires |rows| > 0
    ensures ProvidersOf(rows) ==
              (if rows[0].Some? then {rows[0].value.provider} else {}) + ProvidersOf(rows[1..])
  {
    var tail := rows[1..];
    assert forall j :: 1 <= j < |rows| ==> rows[j] == tail[j - 1];
    forall q | q in ProvidersOf(rows)
      ensures q in (if rows[0].Some? then {rows[0].value.provider} else {}) + ProvidersOf(tail)
    {
      var j :| 0 <= j < |rows| && rows[j].Some? && rows[j].value.provider == q;
      if j > 0 {
        assert tail[j - 1].Some? && tail[j - 1].value.provider == q;
      }
    }
  }

  /** Providers of an entry put in front of a list. */
  lemma ProvidersCons(p: Price, ps: seq<Price>)
    ensures Providers([p] + ps) == {p.provider} + Providers(ps)
  {
    var r := [p] + ps;
    assert forall k :: 1 <= k < |r| ==> r[k] == ps[k - 1];
    forall q | q in Providers(r) ensures q in {p.provider} + Providers(ps) {
      var k :| 0 <= k < |r| && r[k].provider == q;
      if k > 0 { assert ps[k - 1].provider == q; }
    }
    assert r[0].provider == p.provider;
    forall q | q in Providers(ps) ensures q in Providers(r) {
      var k :| 0 <= k < |ps| && ps[k].provider == q;
      assert r[k + 1].provider == q;
    }
  }

  /** The walk emits exactly the providers of the non-null slots that are
      not in `seen`. */
  lemma {:induction false} FirstPerProviderProviders(rows: seq<Option<Price>>, seen: set<string>)
    ensures Providers(FirstPerProvider(rows, seen)) == ProvidersOf(rows) - seen
  {
    if |rows| > 0 {
      ProvidersOfCons(rows);
      match rows[0]
      case None =>
        FirstPerProviderProviders(rows[1..], seen);
      case Some(p) =>
        if p.provider in seen {
          FirstPerProviderProviders(rows[1..], seen);
        } else {
          FirstPerProviderProviders(rows[1..], seen + {p.provider});
          ProvidersCons(p, FirstPerProvider(rows[1..], seen + {p.provider}));
        }
    }
  }

  /** The walk emits no provider twice. */
  lemma {:induction false} FirstPerProviderUnique(rows: seq<Option<Price>>, seen: set<string>)
    ensures UniqueProviders(FirstPerProvider(rows, seen))
  {
    if |rows| > 0 {
      match rows[0]
      case None =>
        FirstPerProviderUnique(rows[1..], seen);
      case Some(p) =>
        if p.provider in seen {
          FirstPerProviderUnique(rows[1..], seen);
        } else {
          var rest := FirstPerProvider(rows[1..], seen + {p.provider});
          FirstPerProviderUnique(rows[1..], seen + {p.provider});
          FirstPerProviderProviders(rows[1..], seen + {p.provider});
          var r := [p] + rest;
          forall a, b | 0 <= a < b < |r| ensures r[a].provider != r[b].provider {
            assert r[b] == rest[b - 1];
            if a == 0 {
              assert rest[b - 1].provider in Providers(rest);
            } else {
              assert r[a] == rest[a - 1];
            }
          }
        }
    }
  }

  /** The walk keeps the order of the non-null slots. */
  lemma {:induction false} FirstPerProviderSubsequence(rows: seq<Option<Price>>, seen: set<string>)
    ensures IsSubsequence(FirstPerProvider(rows, seen), Compact(rows))
  {
    if |rows| > 0 {
      match rows[0]
      case None =>
        FirstPerProviderSubsequence(rows[1..], seen);
        assert Compact(rows) == Compact(rows[1..]);
      case Some(p) =>
        var seen' := if p.provider in seen then seen else seen + {p.provider};
        FirstPerProviderSubsequence(rows[1..], seen');
        assert Compact(rows) == [p] + Compact(rows[1..]);
        if p.provider in seen {
          SubsequenceCons(FirstPerProvider(rows[1..], seen'), p, Compact(rows[1..]));
        } else {
          SubsequenceConsBoth(FirstPerProvider(rows[1..], seen'), p, Compact(rows[1..]));
        }
    }
  }

  /** The de-duplicated list never holds two entries of one provider. */
  lemma DeduplicateUnique(rows: seq<Option<Price>>)
    ensures UniqueProviders(Deduplicate(rows))
  {
    DeduplicateIsFirstPerProvider(rows);
    FirstPerProviderUnique(rows, {});
  }

  /** The de-duplicated list is an order-preserving subsequence of the
      non-null row results and keeps every provider that occurs in them. */
  lemma DeduplicateKeepsOrderAndProviders(rows: seq<Option<Price>>)
    ensures IsSubsequence(Deduplicate(rows), Compact(rows))
    ensures Providers(Deduplicate(rows)) == ProvidersOf(rows)
  {
    DeduplicateIsFirstPerProvider(rows);
    FirstPerProviderSubsequence(rows, {});
    FirstPerProviderProviders(rows, {});
  }

  /** Every de-duplicated price comes from a button row that has a link
      and readable cells: its provider is that row's provider text and its
      link is the travel origin followed by that row's `href`. Rows without
      a link contribute nothing. */
  lemma DeduplicatedRowsOrigin(rows: seq<PriceRow>)
    ensures var r := Deduplicate(ReadRows(rows));
            forall k :: 0 <= k < |r| ==>
              var j := FindProvider(ReadRows(rows), r[k].provider);
              && 0 <= j < |rows|
              && rows[j].href.Some? && rows[j].cells.Some?
              && r[k].provider == rows[j].cells.value.providerText
              && r[k].link == TravelOrigin + rows[j].href.value
  {
    var r := Deduplicate(ReadRows(rows));
    forall k | 0 <= k < |r|
      ensures var j := FindProvider(ReadRows(rows), r[k].provider);
              && 0 <= j < |rows|
              && rows[j].href.Some? && rows[j].cells.Some?
              && r[k].provider == rows[j].cells.value.providerText
              && r[k].link == TravelOrigin + rows[j].href.value
    {
      var j := FindProvider(ReadRows(rows), r[k].provider);
      assert ReadRows(rows)[j] == ReadRow(rows[j]) == Some(r[k]);
      var link := r[k].link;
      assert link == link[..|TravelOrigin|] + link[|TravelOrigin|..];
    }
  }
}
