/**
 * The row tokenizer, written out twice in the parser
 * (homethermostatetl/ecobee.py:26-30 for event rows, 50-54 for sensor rows).
 *
 * Both copies first re-quote the row (every ',' becomes "','" and the row is
 * wrapped in "'"), split on ',', clean each piece of apostrophes and turn an
 * empty piece into `None`. The event copy strips apostrophes only at the ends
 * of a piece; the sensor copy deletes every apostrophe. The lemmas here show
 * that the re-quoting adds no separator: the tokens are exactly the row's own
 * comma-separated segments, cleaned.
 */
module Tokenizer {

  import opened Wrappers

  const Comma: char := ','
  const Quote: char := '\''

  /** How often `c` occurs in `s`. */
  function Count(s: string, c: char): (n: nat)
    ensures n <= |s|
  {
    if s == [] then 0 else (if s[0] == c then 1 else 0) + Count(s[1..], c)
  }

  /**
   * Python's `s.split(",")`: the pieces between commas, empty pieces kept,
   * so there is always one piece more than there are commas.
   */
  function Split(s: string): (r: seq<string>)
    ensures |r| == Count(s, Comma) + 1
  {
    if s == [] then [[]]
    else
      var rest := Split(s[1..]);
      if s[0] == Comma then [[]] + rest
      else [[s[0]] + rest[0]] + rest[1..]
  }

  /** No piece holds a comma. */
  lemma {:induction false} SplitPieces(s: string)
    ensures forall i :: 0 <= i < |Split(s)| ==> Comma !in Split(s)[i]
  {
    if s != [] {
      SplitPieces(s[1..]);
      var rest := Split(s[1..]);
      if s[0] != Comma {
        assert forall i :: 1 <= i < |Split(s)| ==> Split(s)[i] == rest[i];
      } else {
        assert forall i :: 1 <= i < |Split(s)| ==> Split(s)[i] == rest[i - 1];
      }
    }
  }

  /** Python's `",".join(parts)`, the inverse of `Split`. */
  function Join(parts: seq<string>): string
    requires |parts| > 0
  {
    if |parts| == 1 then parts[0] else parts[0] + [Comma] + Join(parts[1..])
  }

  lemma {:induction false} JoinSplit(s: string)
    ensures Join(Split(s)) == s
  {
    if s != [] {
      JoinSplit(s[1..]);
      var rest := Split(s[1..]);
      if s[0] != Comma {
        if |rest| > 1 {
          assert ([[s[0]] + rest[0]] + rest[1..])[1..] == rest[1..];
        }
      } else {
        assert ([[]] + rest)[1..] == rest;
      }
    }
  }

  lemma {:induction false} SplitJoin(parts: seq<string>)
    requires |parts| > 0
    requires forall i :: 0 <= i < |parts| ==> Comma !in parts[i]
    ensures Split(Join(parts)) == parts
  {
    if |parts| == 1 {
      SplitNoComma(parts[0]);
    } else {
      SplitJoin(parts[1..]);
      SplitAfter(parts[0], Join(parts[1..]));
    }
  }

  /** A piece without a comma splits into itself. */
  lemma {:induction false} SplitNoComma(x: string)
    requires Comma !in x
    ensures Split(x) == [x]
  {
    if x != [] {
      SplitNoComma(x[1..]);
      assert [x[0]] + x[1..] == x;
    }
  }

  /** Splitting `x + "," + y`, with no comma in `x`, gives `x` and then the pieces of `y`. */
  lemma {:induction false} SplitAfter(x: string, y: string)
    requires Comma !in x
    ensures Split(x + [Comma] + y) == [x] + Split(y)
  {
    if x == [] {
      assert x + [Comma] + y == [Comma] + y;
      assert ([Comma] + y)[1..] == y;
    } else {
      SplitAfter(x[1..], y);
      var s := x + [Comma] + y;
      assert s[0] == x[0] && s[1..] == x[1..] + [Comma] + y;
      assert [x[0]] + x[1..] == x;
    }
  }

  /** The first piece of `x + tail` is `x` when `x` has no comma and `tail` is empty or starts a new piece. */
  lemma SplitFirst(x: string, tail: string)
    requires Comma !in x
    requires tail == [] || tail[0] == Comma
    ensures Split(x + tail)[0] == x
  {
    if tail == [] {
      assert x + tail == x;
      SplitNoComma(x);
    } else {
      assert x + tail == x + [Comma] + tail[1..];
      SplitAfter(x, tail[1..]);
    }
  }

  /** `row.replace(",", "','")` (ecobee.py:26, 50). */
  function QuoteCommas(s: string): string {
    if s == [] then []
    else (if s[0] == Comma then [Quote, Comma, Quote] else [s[0]]) + QuoteCommas(s[1..])
  }

  /** The row after lines 26-27 (and 50-51): commas re-quoted, the whole wrapped in apostrophes. */
  function Requote(s: string): string {
    [Quote] + QuoteCommas(s) + [Quote]
  }

  /** A segment wrapped in apostrophes, as the re-quoting leaves it. */
  function Wrap(x: string): string {
    [Quote] + x + [Quote]
  }

  function WrapAll(xs: seq<string>): (r: seq<string>)
    ensures |r| == |xs|
    ensures forall i :: 0 <= i < |xs| ==> r[i] == Wrap(xs[i])
  {
    seq(|xs|, i requires 0 <= i < |xs| => Wrap(xs[i]))
  }

  /**
   * The re-quoting inserts no separator: splitting the re-quoted row gives
   * the row's own segments, each wrapped in apostrophes.
   */
  lemma RequoteSplit(s: string)
    ensures Split(Requote(s)) == WrapAll(Split(s))
  {
    RequoteSplitFrom([Quote], s);
    var parts := Split(s);
    assert [[Quote] + parts[0] + [Quote]] + WrapAll(parts[1..]) == WrapAll(parts);
  }

  /** The induction behind `RequoteSplit`, for any comma-free text `p` already in front. */
  lemma {:induction false} RequoteSplitFrom(p: string, s: string)
    requires Comma !in p
    ensures Split(p + QuoteCommas(s) + [Quote]) == [p + Split(s)[0] + [Quote]] + WrapAll(Split(s)[1..])
    decreases s
  {
    if s == [] {
      assert p + QuoteCommas(s) + [Quote] == p + [Quote];
      SplitNoComma(p + [Quote]);
    } else if s[0] == Comma {
      RequoteSplitFrom([Quote], s[1..]);
      RequoteCommaStep(p, s);
    } else {
      RequoteSplitFrom(p + [s[0]], s[1..]);
      QuoteCommasCons(p, s);
      SplitCons(p, s);
    }
  }

  /** The step of `RequoteSplitFrom` for a row that starts with a comma. */
  lemma RequoteCommaStep(p: string, s: string)
    requires Comma !in p && s != [] && s[0] == Comma
    requires Split([Quote] + QuoteCommas(s[1..]) + [Quote]) == WrapAll(Split(s[1..]))
    ensures Split(p + QuoteCommas(s) + [Quote]) == [p + Split(s)[0] + [Quote]] + WrapAll(Split(s)[1..])
  {
    var rest := s[1..];
    var tail := [Quote] + QuoteCommas(rest) + [Quote];
    assert p + QuoteCommas(s) + [Quote] == (p + [Quote]) + [Comma] + tail;
    SplitAfter(p + [Quote], tail);
    assert Split(s) == [[]] + Split(rest);
    assert Split(s)[1..] == Split(rest);
    assert p + Split(s)[0] + [Quote] == p + [Quote];
  }

  /** The step of `RequoteSplitFrom` for a row that starts with any other character. */
  lemma QuoteCommasCons(p: string, s: string)
    requires s != [] && s[0] != Comma
    ensures p + QuoteCommas(s) + [Quote] == (p + [s[0]]) + QuoteCommas(s[1..]) + [Quote]
  {
    var x := QuoteCommas(s[1..]);
    assert QuoteCommas(s) == [s[0]] + x;
    assert p + ([s[0]] + x) == (p + [s[0]]) + x;
  }

  lemma SplitCons(p: string, s: string)
    requires s != [] && s[0] != Comma
    ensures p + Split(s)[0] + [Quote] == (p + [s[0]]) + Split(s[1..])[0] + [Quote]
    ensures Split(s)[1..] == Split(s[1..])[1..]
  {
    assert Split(s)[0] == [s[0]] + Split(s[1..])[0];
  }

  /** Leading apostrophes removed (the left half of `str.strip("'")`). */
  function TrimLeft(s: string): (r: string)
    ensures |r| <= |s|
  {
    if |s| > 0 && s[0] == Quote then TrimLeft(s[1..]) else s
  }

  /** Trailing apostrophes removed (the right half of `str.strip("'")`). */
  function TrimRight(s: string): (r: string)
    ensures |r| <= |s|
  {
    if |s| > 0 && s[|s| - 1] == Quote then TrimRight(s[..|s| - 1]) else s
  }

  /** `TrimLeft` leaves the suffix that follows the run of leading apostrophes. */
  lemma {:induction false} TrimLeftSpec(s: string)
    ensures var r := TrimLeft(s);
            && r == s[|s| - |r|..]
            && (forall i :: 0 <= i < |s| - |r| ==> s[i] == Quote)
            && (r == [] || r[0] != Quote)
  {
    if |s| > 0 && s[0] == Quote {
      TrimLeftSpec(s[1..]);
    }
  }

  /** `TrimRight` leaves the prefix that precedes the run of trailing apostrophes. */
  lemma {:induction false} TrimRightSpec(s: string)
    ensures var r := TrimRight(s);
            && r == s[..|r|]
            && (forall i :: |r| <= i < |s| ==> s[i] == Quote)
            && (r == [] || r[|r| - 1] != Quote)
  {
    if |s| > 0 && s[|s| - 1] == Quote {
      TrimRightSpec(s[..|s| - 1]);
    }
  }

  /** `x.strip("'")` (ecobee.py:29). */
  function Strip(s: string): string {
    TrimRight(TrimLeft(s))
  }

  lemma {:induction false} TrimLeftAppend(x: string)
    ensures TrimLeft(x + [Quote]) == if TrimLeft(x) == [] then [] else TrimLeft(x) + [Quote]
  {
    if x != [] && x[0] == Quote {
      assert (x + [Quote])[1..] == x[1..] + [Quote];
      TrimLeftAppend(x[1..]);
    } else if x == [] {
      assert TrimLeft([Quote]) == TrimLeft([]);
    }
  }

  /** Wrapping a segment in apostrophes does not change what `strip` leaves of it. */
  lemma StripWrap(x: string)
    ensures Strip(Wrap(x)) == Strip(x)
  {
    assert Wrap(x)[1..] == x + [Quote];
    TrimLeftAppend(x);
    var y := TrimLeft(x);
    if y != [] {
      assert (y + [Quote])[..|y|] == y;
    }
  }

  /** `x.replace("'", "")` (ecobee.py:53). */
  function RemoveQuotes(s: string): (r: string)
    ensures Quote !in r
    ensures |r| == |s| - Count(s, Quote)
  {
    if s == [] then [] else (if s[0] == Quote then [] else [s[0]]) + RemoveQuotes(s[1..])
  }

  lemma {:induction false} RemoveQuotesConcat(a: string, b: string)
    ensures RemoveQuotes(a + b) == RemoveQuotes(a) + RemoveQuotes(b)
  {
    if a != [] {
      var head := if a[0] == Quote then [] else [a[0]];
      assert (a + b)[0] == a[0] && (a + b)[1..] == a[1..] + b;
      assert RemoveQuotes(a + b) == head + RemoveQuotes(a[1..] + b);
      RemoveQuotesConcat(a[1..], b);
    } else {
      assert a + b == b;
    }
  }

  lemma RemoveQuotesWrap(x: string)
    ensures RemoveQuotes(Wrap(x)) == RemoveQuotes(x)
  {
    RemoveQuotesConcat([Quote] + x, [Quote]);
    RemoveQuotesConcat([Quote], x);
  }

  /** `x if len(x) > 0 else None` (ecobee.py:30, 54). */
  function NoneIfEmpty(x: string): (r: Option<string>)
    ensures r.None? <==> x == []
    ensures r.Some? ==> r.value == x
  {
    if |x| > 0 then Some(x) else None
  }

  /** Each piece with apostrophes stripped at both ends, `None` where that empties it. */
  function StripEach(pieces: seq<string>): (r: seq<Option<string>>)
    ensures |r| == |pieces|
  {
    if pieces == [] then []
    else [NoneIfEmpty(Strip(pieces[0]))] + StripEach(pieces[1..])
  }

  lemma {:induction false} StripEachAt(pieces: seq<string>, i: nat)
    requires i < |pieces|
    ensures StripEach(pieces)[i] == NoneIfEmpty(Strip(pieces[i]))
  {
    if i > 0 {
      StripEachAt(pieces[1..], i - 1);
    }
  }

  /** Each piece with every apostrophe deleted, `None` where that empties it. */
  function UnquoteEach(pieces: seq<string>): (r: seq<Option<string>>)
    ensures |r| == |pieces|
  {
    if pieces == [] then []
    else [NoneIfEmpty(RemoveQuotes(pieces[0]))] + UnquoteEach(pieces[1..])
  }

  lemma {:induction false} UnquoteEachAt(pieces: seq<string>, i: nat)
    requires i < |pieces|
    ensures UnquoteEach(pieces)[i] == NoneIfEmpty(RemoveQuotes(pieces[i]))
  {
    if i > 0 {
      UnquoteEachAt(pieces[1..], i - 1);
    }
  }

  /** The event-row tokenizer exactly as written (ecobee.py:26-30). */
  function EventTokens(row: string): seq<Option<string>> {
    StripEach(Split(Requote(row)))
  }

  /**
   * One event token per comma-separated segment of the row: token `i` is
   * segment `i` with apostrophes stripped at both ends, `None` if that
   * empties it.
   */
  lemma EventTokensAt(row: string, i: nat)
    ensures |EventTokens(row)| == Count(row, Comma) + 1
    ensures i < |EventTokens(row)| ==> EventTokens(row)[i] == NoneIfEmpty(Strip(Split(row)[i]))
  {
    RequoteSplit(row);
    if i < |EventTokens(row)| {
      StripEachAt(Split(Requote(row)), i);
      StripWrap(Split(row)[i]);
    }
  }

  /** The sensor-row tokenizer exactly as written (ecobee.py:50-54). */
  function SensorTokens(row: string): seq<Option<string>> {
    UnquoteEach(Split(Requote(row)))
  }

  /**
   * One sensor token per comma-separated segment of the row: token `i` is
   * segment `i` with every apostrophe deleted, `None` if that empties it.
   */
  lemma SensorTokensAt(row: string, i: nat)
    ensures |SensorTokens(row)| == Count(row, Comma) + 1
    ensures i < |SensorTokens(row)| ==> SensorTokens(row)[i] == NoneIfEmpty(RemoveQuotes(Split(row)[i]))
  {
    RequoteSplit(row);
    if i < |SensorTokens(row)| {
      UnquoteEachAt(Split(Requote(row)), i);
      RemoveQuotesWrap(Split(row)[i]);
    }
  }
}
