/** The text of one message as components/Message.tsx renders it: the
    markdown-lite transform into paragraphs and list items, bold spans,
    citation links and the streaming cursor. The waiting indicators, the
    feedback toggle and the source list are in `MessageView`. Instead
    of HTML strings a line is a sequence of tokens: a character of the text,
    the opening or closing of a bold span, a citation link, or the
    streaming cursor. */
module Render {
  import opened ChatTypes
  import Decimal
  import JsText

  datatype Tok =
    | Ch(c: char)
    | StrongOpen
    | StrongClose
    | CiteLink(index: nat, digits: string)
    | Cursor

  function Chars(s: string): (t: seq<Tok>)
    ensures |t| == |s| && forall i :: 0 <= i < |s| ==> t[i] == Ch(s[i])
  {
    seq(|s|, i requires 0 <= i < |s| => Ch(s[i]))
  }

  /** Tokens that stand for text the transforms may still rewrite. */
  predicate Unmarked(t: seq<Tok>) {
    forall i :: 0 <= i < |t| ==> t[i].Ch? || t[i].Cursor?
  }

  // ---------------------------------------------------------------------
  // Bold: line.replace(/\*\*(.*?)\*\*/g, '<strong>$1</strong>')

  /** JavaScript's `.` matches anything but these. */
  predicate IsLineTerminator(c: char) {
    c == '\n' || c == '\r' || c == '\U{2028}' || c == '\U{2029}'
  }

  predicate Breaks(x: Tok) {
    x.Ch? && IsLineTerminator(x.c)
  }

  /** `**` at position `i`. */
  predicate PairAt(t: seq<Tok>, i: nat) {
    i + 1 < |t| && t[i] == Ch('*') && t[i + 1] == Ch('*')
  }

  /** Where the lazy `(.*?)\*\*` after an opening `**` ends: the first `**`
      of `t`, provided no line terminator comes before it. */
  function Closing(t: seq<Tok>): (q: Option<nat>)
    ensures q.Some? ==> PairAt(t, q.value)
    decreases |t|
  {
    if |t| < 2 then None
    else if PairAt(t, 0) then Some(0)
    else if Breaks(t[0]) then None
    else match Closing(t[1..])
      case Some(q) =>
        assert t[1..][q] == t[q + 1] && t[1..][q + 1] == t[q + 2];
        Some(q + 1)
      case None => None
  }

  /** The `**` that `Closing` finds is the first one, and no line
      terminator comes before it. */
  lemma {:induction false} ClosingIsFirst(t: seq<Tok>)
    requires Closing(t).Some?
    ensures forall k :: 0 <= k < Closing(t).value ==> !PairAt(t, k) && !Breaks(t[k])
    decreases |t|
  {
    if !PairAt(t, 0) {
      var q := Closing(t[1..]).value;
      ClosingIsFirst(t[1..]);
      forall k | 0 < k < q + 1 ensures !PairAt(t, k) && !Breaks(t[k]) {
        assert !PairAt(t[1..], k - 1) && !Breaks(t[1..][k - 1]);
        assert t[1..][k - 1] == t[k] && (k < q + 1 ==> t[1..][k] == t[k + 1]);
      }
    }
  }

  /** A bold match starts at `i`. */
  predicate MatchAt(t: seq<Tok>, i: nat) {
    PairAt(t, i) && Closing(t[i + 2..]).Some?
  }

  /** The global replace, scanning left to right and resuming after each match. */
  function Bold(t: seq<Tok>): seq<Tok>
    decreases |t|
  {
    if |t| < 2 then t
    else if MatchAt(t, 0) then
      var q := Closing(t[2..]).value;
      [StrongOpen] + t[2..2 + q] + [StrongClose] + Bold(t[2 + q + 2..])
    else [t[0]] + Bold(t[1..])
  }

  /** The text a bold-rendered line came from: each tag back to `**`. */
  function Unbold(t: seq<Tok>): seq<Tok> {
    if t == [] then []
    else (if t[0].StrongOpen? || t[0].StrongClose? then [Ch('*'), Ch('*')] else [t[0]]) + Unbold(t[1..])
  }

  lemma {:induction false} UnboldAppend(a: seq<Tok>, b: seq<Tok>)
    ensures Unbold(a + b) == Unbold(a) + Unbold(b)
  {
    if a == [] {
      assert a + b == b;
    } else {
      var h := if a[0].StrongOpen? || a[0].StrongClose? then [Ch('*'), Ch('*')] else [a[0]];
      assert (a + b)[0] == a[0] && (a + b)[1..] == a[1..] + b;
      UnboldAppend(a[1..], b);
      calc {
        Unbold(a + b);
        h + Unbold(a[1..] + b);
        h + (Unbold(a[1..]) + Unbold(b));
        { assert h + (Unbold(a[1..]) + Unbold(b)) == (h + Unbold(a[1..])) + Unbold(b); }
        (h + Unbold(a[1..])) + Unbold(b);
        Unbold(a) + Unbold(b);
      }
    }
  }

  lemma UnboldSpan(body: seq<Tok>, rest: seq<Tok>)
    ensures Unbold([StrongOpen] + body + [StrongClose] + rest)
      == [Ch('*'), Ch('*')] + Unbold(body) + [Ch('*'), Ch('*')] + Unbold(rest)
  {
    UnboldAppend([StrongOpen] + body + [StrongClose], rest);
    UnboldAppend([StrongOpen] + body, [StrongClose]);
    UnboldAppend([StrongOpen], body);
    assert Unbold([StrongOpen]) == [Ch('*'), Ch('*')] + Unbold([]);
    assert Unbold([StrongClose]) == [Ch('*'), Ch('*')] + Unbold([]);
  }

  lemma {:induction false} UnboldUnmarked(t: seq<Tok>)
    requires Unmarked(t)
    ensures Unbold(t) == t
  {
    if t != [] {
      UnboldUnmarked(t[1..]);
    }
  }

  /** A slice of an unmarked line is unmarked. */
  lemma UnmarkedSlice(t: seq<Tok>, i: nat, j: nat)
    requires Unmarked(t) && i <= j <= |t|
    ensures Unmarked(t[i..j])
  {
    forall k | 0 <= k < j - i ensures t[i..j][k].Ch? || t[i..j][k].Cursor? {
      assert t[i..j][k] == t[i + k];
    }
  }

  /** A line opening with `**`, and with `**` again after `q` tokens,
      is those pieces put together. */
  lemma SpanPieces(t: seq<Tok>, q: nat)
    requires PairAt(t, 0) && PairAt(t[2..], q)
    ensures t == [Ch('*'), Ch('*')] + t[2..2 + q] + [Ch('*'), Ch('*')] + t[2 + q + 2..]
  {
    assert t[..2] == [Ch('*'), Ch('*')];
    assert t[2 + q..2 + q + 2] == [Ch('*'), Ch('*')] by {
      assert t[2 + q] == t[2..][q] && t[2 + q + 1] == t[2..][q + 1];
    }
    Pieces(t, 2, 2 + q, 2 + q + 2);
  }

  /** A line that opens with a complete bold span. */
  lemma BoldRoundTripSpan(t: seq<Tok>, q: nat)
    requires Unmarked(t) && 2 <= |t| && MatchAt(t, 0) && q == Closing(t[2..]).value
    requires Unbold(Bold(t[2 + q + 2..])) == t[2 + q + 2..]
    ensures Unbold(Bold(t)) == t
  {
    assert PairAt(t[2..], q);
    var body, rest := t[2..2 + q], t[2 + q + 2..];
    assert Bold(t) == [StrongOpen] + body + [StrongClose] + Bold(rest);
    UnboldSpan(body, Bold(rest));
    UnmarkedSlice(t, 2, 2 + q);
    UnboldUnmarked(body);
    SpanPieces(t, q);
  }

  lemma Pieces<T>(t: seq<T>, i: nat, j: nat, k: nat)
    requires i <= j <= k <= |t|
    ensures t == t[..i] + t[i..j] + t[j..k] + t[k..]
  {
  }

  /** A line whose first token is copied as it is. */
  lemma BoldRoundTripCopy(t: seq<Tok>)
    requires 2 <= |t| && !MatchAt(t, 0)
    requires Unbold(Bold(t[1..])) == t[1..]
    requires !t[0].StrongOpen? && !t[0].StrongClose?
    ensures Unbold(Bold(t)) == t
  {
    assert Bold(t) == [t[0]] + Bold(t[1..]);
    UnboldAppend([t[0]], Bold(t[1..]));
    assert Unbold([t[0]]) == [t[0]] + Unbold([]);
    assert t == [t[0]] + t[1..];
  }

  /** Bold rendering only adds tags: removing them gives the line back. */
  lemma {:induction false} BoldRoundTrip(t: seq<Tok>)
    requires Unmarked(t)
    ensures Unbold(Bold(t)) == t
    decreases |t|
  {
    if |t| < 2 {
      UnboldUnmarked(t);
    } else if MatchAt(t, 0) {
      var q := Closing(t[2..]).value;
      assert PairAt(t[2..], q);
      BoldRoundTrip(t[2 + q + 2..]);
      BoldRoundTripSpan(t, q);
    } else {
      BoldRoundTrip(t[1..]);
      BoldRoundTripCopy(t);
    }
  }

  /** The first `**` after the opening one closes the span, so the match
      is lazy: a line `**x**y`, where `x` has no `**`, does not end with
      `*` and stays on one line, renders `x` bold and goes on with `y`. */
  lemma BoldIsLazy(x: seq<Tok>, y: seq<Tok>)
    requires forall k :: 0 <= k < |x| ==> !PairAt(x + [Ch('*')], k)
    requires forall k :: 0 <= k < |x| ==> !Breaks(x[k])
    ensures Bold(Chars("**") + x + Chars("**") + y) == [StrongOpen] + x + [StrongClose] + Bold(y)
  {
    var star := Chars("**");
    var t := star + x + star + y;
    assert t[2..] == x + star + y;
    ClosingFirst(x, y);
    assert MatchAt(t, 0);
    assert t[2..2 + |x|] == x && t[2 + |x| + 2..] == y;
  }

  lemma {:induction false} ClosingFirst(x: seq<Tok>, y: seq<Tok>)
    requires forall k :: 0 <= k < |x| ==> !PairAt(x + [Ch('*')], k)
    requires forall k :: 0 <= k < |x| ==> !Breaks(x[k])
    ensures Closing(x + Chars("**") + y) == Some(|x|)
  {
    var t := x + Chars("**") + y;
    if x == [] {
      assert PairAt(t, 0);
    } else {
      assert !PairAt(t, 0) by {
        assert !PairAt(x + [Ch('*')], 0);
        if |x| == 1 {
          assert (x + [Ch('*')])[1] == t[1];
        } else {
          assert (x + [Ch('*')])[1] == t[1];
        }
      }
      assert !Breaks(t[0]);
      assert t[1..] == x[1..] + Chars("**") + y;
      forall k | 0 <= k < |x[1..]| ensures !PairAt(x[1..] + [Ch('*')], k) {
        assert !PairAt(x + [Ch('*')], k + 1);
        assert x[1..] + [Ch('*')] == (x + [Ch('*')])[1..];
      }
      assert forall k :: 0 <= k < |x[1..]| ==> !Breaks(x[1..][k]) by {
        forall k | 0 <= k < |x[1..]| ensures !Breaks(x[1..][k]) {
          assert x[1..][k] == x[k + 1];
        }
      }
      ClosingFirst(x[1..], y);
    }
  }

  lemma PairShift(t: seq<Tok>, i: nat)
    requires 1 <= i && |t| >= 1
    ensures PairAt(t, i) == PairAt(t[1..], i - 1)
    ensures MatchAt(t, i) == MatchAt(t[1..], i - 1)
  {
    if i + 2 <= |t| {
      assert t[i + 2..] == t[1..][i - 1 + 2..];
    }
  }

  lemma NoMatchShift(t: seq<Tok>)
    requires |t| >= 1 && !MatchAt(t, 0)
    ensures (forall i :: 0 <= i < |t| ==> !MatchAt(t, i)) <==>
            (forall i :: 0 <= i < |t[1..]| ==> !MatchAt(t[1..], i))
  {
    forall i | 1 <= i < |t| ensures MatchAt(t, i) == MatchAt(t[1..], i - 1) {
      PairShift(t, i);
    }
    if forall i :: 0 <= i < |t[1..]| ==> !MatchAt(t[1..], i) {
      forall i | 0 <= i < |t| ensures !MatchAt(t, i) {
        if i > 0 {
          assert !MatchAt(t[1..], i - 1);
        }
      }
    } else {
      var j :| 0 <= j < |t[1..]| && MatchAt(t[1..], j);
      assert MatchAt(t, j + 1);
    }
  }

  lemma CopyStep(t: seq<Tok>)
    requires Unmarked(t) && |t| >= 2 && !MatchAt(t, 0)
    ensures Bold(t) == t <==> Bold(t[1..]) == t[1..]
  {
    assert Bold(t) == [t[0]] + Bold(t[1..]);
    if Bold(t) == t {
      assert Bold(t)[1..] == Bold(t[1..]);
    } else {
      assert t == [t[0]] + t[1..];
    }
  }

  /** A line is left as it is exactly when no bold match starts anywhere in it. */
  lemma {:induction false} BoldUnchangedIffNoMatch(t: seq<Tok>)
    requires Unmarked(t)
    ensures Bold(t) == t <==> forall i :: 0 <= i < |t| ==> !MatchAt(t, i)
    decreases |t|
  {
    if |t| < 2 {
    } else if MatchAt(t, 0) {
      assert Bold(t)[0] == StrongOpen;
    } else {
      assert Unmarked(t[1..]);
      BoldUnchangedIffNoMatch(t[1..]);
      NoMatchShift(t);
      CopyStep(t);
    }
  }

  /** Removing the tags keeps every other kind of token where it was. */
  lemma {:induction false} UnboldKeeps(t: seq<Tok>, x: Tok)
    requires !x.Ch? && !x.StrongOpen? && !x.StrongClose?
    ensures x in Unbold(t) <==> x in t
  {
    if t != [] {
      UnboldKeeps(t[1..], x);
      var h := if t[0].StrongOpen? || t[0].StrongClose? then [Ch('*'), Ch('*')] else [t[0]];
      assert Unbold(t) == h + Unbold(t[1..]);
      assert x in h <==> x == t[0];
      assert t == [t[0]] + t[1..];
    }
  }

  // ---------------------------------------------------------------------
  // Citations: line.replace(/\[(\d+)\]/g, ...)

  predicate IsDigitTok(x: Tok) {
    x.Ch? && Decimal.IsDigit(x.c)
  }

  /** `\d+` is greedy: the whole run of digits at the start of `t`. */
  function DigitRun(t: seq<Tok>): (d: string)
    ensures |d| <= |t| && Decimal.AllDigits(d)
    ensures forall k :: 0 <= k < |d| ==> t[k] == Ch(d[k])
    ensures |d| < |t| ==> !IsDigitTok(t[|d|])
  {
    if t != [] && IsDigitTok(t[0]) then [t[0].c] + DigitRun(t[1..]) else []
  }

  /** The digits of a marker `[digits]` that starts `t`, if one does. */
  function MarkerAt(t: seq<Tok>): (d: Option<string>)
    ensures d.Some? ==> |d.value| > 0 && Decimal.AllDigits(d.value) && |d.value| + 2 <= |t|
  {
    if t != [] && t[0] == Ch('[') then
      var d := DigitRun(t[1..]);
      if |d| > 0 && |d| + 1 < |t| && t[|d| + 1] == Ch(']') then Some(d) else None
    else None
  }

  /** A marker at the start of `u` whose number names one of `count` sources. */
  predicate LiveMarkerAt(u: seq<Tok>, count: nat) {
    MarkerAt(u).Some? && 1 <= Decimal.Value(MarkerAt(u).value) <= count
  }

  /** The global replace: a marker whose number `n` names one of the
      `count` sources becomes a link to source `n - 1`; any other marker is
      left as written, and the scan resumes after it. */
  function LinkCitations(t: seq<Tok>, count: nat): seq<Tok>
    decreases |t|
  {
    if t == [] then []
    else match MarkerAt(t)
      case Some(d) =>
        var n := Decimal.Value(d);
        (if 1 <= n <= count then [CiteLink(n - 1, d)] else t[..|d| + 2])
        + LinkCitations(t[|d| + 2..], count)
      case None => [t[0]] + LinkCitations(t[1..], count)
  }

  /** The text a linked line came from: each link back to its marker. */
  function Uncite(t: seq<Tok>): seq<Tok> {
    if t == [] then []
    else (if t[0].CiteLink? then [Ch('[')] + Chars(t[0].digits) + [Ch(']')] else [t[0]]) + Uncite(t[1..])
  }

  predicate NoLinks(t: seq<Tok>) {
    forall i :: 0 <= i < |t| ==> !t[i].CiteLink?
  }

  /** Every link names a source in range and carries the number that
      names it. */
  predicate LinksValid(u: seq<Tok>, count: nat) {
    forall k :: 0 <= k < |u| && u[k].CiteLink? ==>
      u[k].index < count && Decimal.AllDigits(u[k].digits) && Decimal.Value(u[k].digits) == u[k].index + 1
  }

  lemma {:induction false} UnciteAppend(a: seq<Tok>, b: seq<Tok>)
    ensures Uncite(a + b) == Uncite(a) + Uncite(b)
  {
    if a == [] {
      assert a + b == b;
    } else {
      assert (a + b)[0] == a[0] && (a + b)[1..] == a[1..] + b;
      UnciteAppend(a[1..], b);
    }
  }

  lemma {:induction false} UnciteNoLinks(t: seq<Tok>)
    requires NoLinks(t)
    ensures Uncite(t) == t
  {
    if t != [] {
      UnciteNoLinks(t[1..]);
    }
  }

  /** The marker a line starts with, spelled out. */
  lemma MarkerSpelled(t: seq<Tok>)
    requires MarkerAt(t).Some?
    ensures var d := MarkerAt(t).value; t[..|d| + 2] == [Ch('[')] + Chars(d) + [Ch(']')]
  {
    var d := MarkerAt(t).value;
    assert forall k :: 0 <= k < |d| ==> t[1..][k] == Ch(d[k]);
  }

  /** The marker `[digits]` spelled out in tokens. */
  function MarkerText(d: string): (t: seq<Tok>)
    ensures |t| == |d| + 2 && t[0] == Ch('[') && t[|d| + 1] == Ch(']')
  {
    [Ch('[')] + Chars(d) + [Ch(']')]
  }

  /** Every `[digits]` is recognised, whatever follows it: `\d+` takes the
      whole run, since `]` is no digit. */
  lemma MarkerRecognised(d: string, rest: seq<Tok>)
    requires |d| > 0 && Decimal.AllDigits(d)
    ensures MarkerAt(MarkerText(d) + rest) == Some(d)
  {
    var t := MarkerText(d) + rest;
    var c, after := Chars(d), [Ch(']')] + rest;
    assert t[1..] == c + after;
    assert forall k :: 0 <= k < |c| ==> IsDigitTok(c[k]);
    RunOfDigitsThen(c, after);
    var e := DigitRun(t[1..]);
    forall k | 0 <= k < |d| ensures e[k] == d[k] {
      assert t[1..][k] == Ch(e[k]) && t[1..][k] == c[k];
    }
    assert e == d;
    assert t[|d| + 1] == Ch(']');
  }

  /** A citation `[n]` naming one of the `count` sources becomes a link to
      source `n - 1`, and the scan goes on right after it. */
  lemma CitationLinked(d: string, rest: seq<Tok>, count: nat)
    requires |d| > 0 && Decimal.AllDigits(d) && 1 <= Decimal.Value(d) <= count
    ensures LinkCitations(MarkerText(d) + rest, count)
      == [CiteLink(Decimal.Value(d) - 1, d)] + LinkCitations(rest, count)
  {
    var t := MarkerText(d) + rest;
    MarkerRecognised(d, rest);
    MarkerPieces(d, rest);
    LinkAtLiveMarker(t, count);
  }

  lemma MarkerPieces(d: string, rest: seq<Tok>)
    ensures var t := MarkerText(d) + rest; t[..|d| + 2] == MarkerText(d) && t[|d| + 2..] == rest
  {
  }

  /** A citation naming no source is copied as written, and the scan goes
      on right after it. */
  lemma CitationKept(d: string, rest: seq<Tok>, count: nat)
    requires |d| > 0 && Decimal.AllDigits(d) && !(1 <= Decimal.Value(d) <= count)
    ensures LinkCitations(MarkerText(d) + rest, count) == MarkerText(d) + LinkCitations(rest, count)
  {
    var t := MarkerText(d) + rest;
    MarkerRecognised(d, rest);
    MarkerPieces(d, rest);
    LinkAtDeadMarker(t, count);
  }

  /** What a recognised marker turns into spells the marker back out. */
  lemma UnciteMarkerHead(t: seq<Tok>, count: nat)
    requires MarkerAt(t).Some? && NoLinks(t)
    ensures var d := MarkerAt(t).value; var n := Decimal.Value(d);
      Uncite(if 1 <= n <= count then [CiteLink(n - 1, d)] else t[..|d| + 2]) == t[..|d| + 2]
  {
    var d := MarkerAt(t).value;
    var n := Decimal.Value(d);
    MarkerSpelled(t);
    if 1 <= n <= count {
      assert Uncite([CiteLink(n - 1, d)]) == [Ch('[')] + Chars(d) + [Ch(']')] + Uncite([]);
    } else {
      assert NoLinks(t[..|d| + 2]);
      UnciteNoLinks(t[..|d| + 2]);
    }
  }

  /** The pass at a recognised marker: its replacement, then the rest. */
  lemma LinkAtMarker(t: seq<Tok>, count: nat)
    requires MarkerAt(t).Some?
    ensures var d := MarkerAt(t).value; var n := Decimal.Value(d);
      LinkCitations(t, count)
      == (if 1 <= n <= count then [CiteLink(n - 1, d)] else t[..|d| + 2]) + LinkCitations(t[|d| + 2..], count)
  {
  }

  /** A marker naming a source becomes a link to it. */
  lemma LinkAtLiveMarker(t: seq<Tok>, count: nat)
    requires MarkerAt(t).Some? && 1 <= Decimal.Value(MarkerAt(t).value) <= count
    ensures var d := MarkerAt(t).value;
      LinkCitations(t, count) == [CiteLink(Decimal.Value(d) - 1, d)] + LinkCitations(t[|d| + 2..], count)
  {
  }

  /** A marker naming no source is copied as written. */
  lemma LinkAtDeadMarker(t: seq<Tok>, count: nat)
    requires MarkerAt(t).Some? && !(1 <= Decimal.Value(MarkerAt(t).value) <= count)
    ensures var d := MarkerAt(t).value;
      LinkCitations(t, count) == t[..|d| + 2] + LinkCitations(t[|d| + 2..], count)
  {
  }

  /** Two pieces that spell out the two halves of `a` spell out `a`. */
  lemma UnciteGlue(a: seq<Tok>, h: seq<Tok>, r: seq<Tok>, m: nat)
    requires m <= |a| && Uncite(h) == a[..m] && Uncite(r) == a[m..]
    ensures Uncite(h + r) == a
  {
    UnciteAppend(h, r);
    assert a == a[..m] + a[m..];
  }

  /** The pass where no marker starts: the first token, then the rest. */
  lemma LinkAtOther(t: seq<Tok>, count: nat)
    requires t != [] && MarkerAt(t).None?
    ensures LinkCitations(t, count) == [t[0]] + LinkCitations(t[1..], count)
  {
  }

  lemma LinkStepMarker(t: seq<Tok>, count: nat)
    requires NoLinks(t) && MarkerAt(t).Some?
    requires Uncite(LinkCitations(t[|MarkerAt(t).value| + 2..], count)) == t[|MarkerAt(t).value| + 2..]
    ensures Uncite(LinkCitations(t, count)) == t
  {
    var d := MarkerAt(t).value;
    var m, n := |d| + 2, Decimal.Value(d);
    var head := if 1 <= n <= count then [CiteLink(n - 1, d)] else t[..m];
    LinkAtMarker(t, count);
    UnciteMarkerHead(t, count);
    UnciteGlue(t, head, LinkCitations(t[m..], count), m);
  }

  lemma LinkStepOther(t: seq<Tok>, count: nat)
    requires NoLinks(t) && t != [] && MarkerAt(t).None?
    requires Uncite(LinkCitations(t[1..], count)) == t[1..]
    ensures Uncite(LinkCitations(t, count)) == t
  {
    LinkAtOther(t, count);
    assert Uncite([t[0]]) == [t[0]] + Uncite([]);
    UnciteGlue(t, [t[0]], LinkCitations(t[1..], count), 1);
  }

  /** Linking only replaces markers: spelling the links out again gives
      the line back. */
  lemma {:induction false} LinkRoundTrip(t: seq<Tok>, count: nat)
    requires NoLinks(t)
    ensures Uncite(LinkCitations(t, count)) == t
    decreases |t|
  {
    if t != [] {
      var m := if MarkerAt(t).Some? then |MarkerAt(t).value| + 2 else 1;
      assert NoLinks(t[m..]);
      LinkRoundTrip(t[m..], count);
      if MarkerAt(t).Some? {
        LinkStepMarker(t, count);
      } else {
        LinkStepOther(t, count);
      }
    }
  }

  lemma LinksValidAppend(a: seq<Tok>, b: seq<Tok>, count: nat)
    requires LinksValid(a, count) && LinksValid(b, count)
    ensures LinksValid(a + b, count)
  {
    forall k | 0 <= k < |a + b| && (a + b)[k].CiteLink?
      ensures (a + b)[k].index < count
    {
      if k >= |a| {
        assert (a + b)[k] == b[k - |a|];
      }
    }
  }

  /** Every link the pass makes points at one of the sources, and its
      number is the one the marker was written with. */
  lemma {:induction false} LinksInRange(t: seq<Tok>, count: nat)
    requires NoLinks(t)
    ensures LinksValid(LinkCitations(t, count), count)
    decreases |t|
  {
    if t != [] {
      match MarkerAt(t)
      case Some(d) =>
        var m := |d| + 2;
        assert NoLinks(t[m..]);
        LinksInRange(t[m..], count);
        var n := Decimal.Value(d);
        var head := if 1 <= n <= count then [CiteLink(n - 1, d)] else t[..m];
        assert LinksValid(head, count);
        LinksValidAppend(head, LinkCitations(t[m..], count), count);
      case None =>
        assert NoLinks(t[1..]);
        LinksInRange(t[1..], count);
        LinksValidAppend([t[0]], LinkCitations(t[1..], count), count);
    }
  }

  /** No marker naming a source is left unlinked. */
  predicate NoLiveMarker(u: seq<Tok>, count: nat) {
    forall k :: 0 <= k <= |u| ==> !LiveMarkerAt(u[k..], count)
  }

  /** Where no live marker is left, no citation `[n]` with `1 <= n <= count`
      is spelled out anywhere. */
  lemma NoCitationSpelled(u: seq<Tok>, count: nat, k: nat, d: string, rest: seq<Tok>)
    requires NoLiveMarker(u, count) && k <= |u|
    requires |d| > 0 && Decimal.AllDigits(d) && 1 <= Decimal.Value(d) <= count
    ensures u[k..] != MarkerText(d) + rest
  {
    MarkerRecognised(d, rest);
    assert LiveMarkerAt(MarkerText(d) + rest, count);
    assert !LiveMarkerAt(u[k..], count);
  }

  lemma LinkFirst(v: seq<Tok>, count: nat)
    requires v != []
    ensures LinkCitations(v, count) != []
    ensures LinkCitations(v, count)[0] == v[0] || LinkCitations(v, count)[0].CiteLink?
  {
    if MarkerAt(v).Some? {
      MarkerSpelled(v);
    }
  }

  lemma {:induction false} RunOfDigitsThen(a: seq<Tok>, b: seq<Tok>)
    requires forall k :: 0 <= k < |a| ==> IsDigitTok(a[k])
    requires b != [] ==> !IsDigitTok(b[0])
    ensures |DigitRun(a + b)| == |a|
  {
    if a == [] {
      assert a + b == b;
    } else {
      assert (a + b)[0] == a[0] && (a + b)[1..] == a[1..] + b;
      RunOfDigitsThen(a[1..], b);
    }
  }

  /** The pass copies a run of digits, and what follows the run in the
      output is what followed it in the input, or a link. */
  lemma LinkedRun(u: seq<Tok>, count: nat)
    ensures var d, out := DigitRun(u), LinkCitations(u, count);
      && |out| >= |d| && |DigitRun(out)| == |d|
      && (|d| < |out| ==> |d| < |u| && (out[|d|] == u[|d|] || out[|d|].CiteLink?))
  {
    var d := DigitRun(u);
    var p, v := u[..|d|], u[|d|..];
    RunIsInert(u);
    LinkInertPrefix(p, v, count);
    var w := LinkCitations(v, count);
    if v != [] {
      LinkFirst(v, count);
      assert v[0] == u[|d|];
    }
    RunOfDigitsThen(p, w);
  }

  /** The leading run of digits is inert text, and the rest follows it. */
  lemma RunIsInert(u: seq<Tok>)
    ensures var p := u[..|DigitRun(u)|];
      && u == p + u[|DigitRun(u)|..]
      && (forall i :: 0 <= i < |p| ==> Inert(p[i]))
      && (forall i :: 0 <= i < |p| ==> IsDigitTok(p[i]))
  {
    var d := DigitRun(u);
    var p := u[..|d|];
    forall i | 0 <= i < |p| ensures Inert(p[i]) && IsDigitTok(p[i]) {
      assert p[i] == Ch(d[i]);
    }
  }

  /** A `[` the pass copied does not start a marker in the output either. */
  lemma CopiedBracket(t: seq<Tok>, count: nat)
    requires t != [] && MarkerAt(t).None?
    ensures MarkerAt(LinkCitations(t, count)).None?
  {
    var out := LinkCitations(t, count);
    assert out == [t[0]] + LinkCitations(t[1..], count);
    if t[0] == Ch('[') {
      var u := t[1..];
      var d, o := DigitRun(u), LinkCitations(u, count);
      LinkedRun(u, count);
      assert out[1..] == o;
      if |d| > 0 && |d| + 1 < |out| {
        assert out[|d| + 1] == o[|d|];
        assert u[|d|] == t[|d| + 1];
      }
    }
  }

  /** A marker copied as written is still the same marker, whatever
      follows it. */
  lemma MarkerKept(t: seq<Tok>, rest: seq<Tok>)
    requires MarkerAt(t).Some?
    ensures MarkerAt(t[..|MarkerAt(t).value| + 2] + rest) == MarkerAt(t)
  {
    var d := MarkerAt(t).value;
    var m := |d| + 2;
    var out := t[..m] + rest;
    MarkerSpelled(t);
    var a, b := t[1..m - 1], [Ch(']')] + rest;
    assert out[1..] == a + b;
    assert forall i :: 0 <= i < |a| ==> a[i] == Ch(d[i]);
    RunOfDigitsThen(a, b);
    var e := DigitRun(out[1..]);
    assert e == d by {
      forall i | 0 <= i < |d| ensures e[i] == d[i] {
        assert (a + b)[i] == a[i];
      }
    }
    assert out[|d| + 1] == Ch(']');
  }

  /** No marker starts inside a copied marker. */
  lemma NoMarkerInside(t: seq<Tok>, rest: seq<Tok>, k: nat)
    requires MarkerAt(t).Some?
    requires 0 < k < |MarkerAt(t).value| + 2
    ensures MarkerAt((t[..|MarkerAt(t).value| + 2] + rest)[k..]).None?
  {
    var m := |MarkerAt(t).value| + 2;
    MarkerSpelled(t);
    assert (t[..m] + rest)[k..][0] == t[k];
  }

  /** After the pass no marker that names a source is left as text. */
  lemma {:induction false} NoLiveMarkerLeft(t: seq<Tok>, count: nat)
    ensures NoLiveMarker(LinkCitations(t, count), count)
    decreases |t|
  {
    if t != [] {
      if MarkerAt(t).Some? {
        NoLiveMarkerLeft(t[|MarkerAt(t).value| + 2..], count);
        if 1 <= Decimal.Value(MarkerAt(t).value) <= count {
          NoLiveAfterLink(t, count);
        } else {
          NoLiveAfterCopy(t, count);
        }
      } else {
        NoLiveMarkerLeft(t[1..], count);
        NoLiveMarkerAfterOther(t, count);
      }
    }
  }

  /** A head none of whose positions starts a live marker, before a rest
      that has none, leaves none. */
  lemma NoLiveGlue(head: seq<Tok>, rest: seq<Tok>, count: nat)
    requires forall k :: 0 <= k < |head| ==> !LiveMarkerAt((head + rest)[k..], count)
    requires NoLiveMarker(rest, count)
    ensures NoLiveMarker(head + rest, count)
  {
    var out := head + rest;
    forall k | |head| <= k <= |out| ensures !LiveMarkerAt(out[k..], count) {
      assert out[k..] == rest[k - |head|..];
    }
  }

  /** A link is not a marker. */
  lemma LinkHeadNoLive(c: Tok, rest: seq<Tok>, out: seq<Tok>, count: nat)
    requires c.CiteLink? && NoLiveMarker(rest, count) && out == [c] + rest
    ensures NoLiveMarker(out, count)
  {
    assert ([c] + rest)[0..][0] == c;
    NoLiveGlue([c], rest, count);
  }

  /** A marker copied because its number names no source stays dead. */
  lemma CopiedMarkerNoLive(t: seq<Tok>, rest: seq<Tok>, out: seq<Tok>, count: nat)
    requires MarkerAt(t).Some? && !(1 <= Decimal.Value(MarkerAt(t).value) <= count)
    requires NoLiveMarker(rest, count) && out == t[..|MarkerAt(t).value| + 2] + rest
    ensures NoLiveMarker(out, count)
  {
    var head := t[..|MarkerAt(t).value| + 2];
    forall k | 0 <= k < |head| ensures !LiveMarkerAt((head + rest)[k..], count) {
      if k == 0 {
        MarkerKept(t, rest);
        assert (head + rest)[k..] == head + rest;
      } else {
        NoMarkerInside(t, rest, k);
      }
    }
    NoLiveGlue(head, rest, count);
  }

  /** No live marker is left over the link a live marker becomes. */
  lemma NoLiveAfterLink(t: seq<Tok>, count: nat)
    requires MarkerAt(t).Some? && 1 <= Decimal.Value(MarkerAt(t).value) <= count
    requires NoLiveMarker(LinkCitations(t[|MarkerAt(t).value| + 2..], count), count)
    ensures NoLiveMarker(LinkCitations(t, count), count)
  {
    var d := MarkerAt(t).value;
    LinkAtLiveMarker(t, count);
    LinkHeadNoLive(CiteLink(Decimal.Value(d) - 1, d), LinkCitations(t[|d| + 2..], count), LinkCitations(t, count), count);
  }

  /** No live marker is left over a dead marker copied as written. */
  lemma NoLiveAfterCopy(t: seq<Tok>, count: nat)
    requires MarkerAt(t).Some? && !(1 <= Decimal.Value(MarkerAt(t).value) <= count)
    requires NoLiveMarker(LinkCitations(t[|MarkerAt(t).value| + 2..], count), count)
    ensures NoLiveMarker(LinkCitations(t, count), count)
  {
    var d := MarkerAt(t).value;
    LinkAtDeadMarker(t, count);
    CopiedMarkerNoLive(t, LinkCitations(t[|d| + 2..], count), LinkCitations(t, count), count);
  }

  /** No live marker is left over a copied token. */
  lemma NoLiveMarkerAfterOther(t: seq<Tok>, count: nat)
    requires t != [] && MarkerAt(t).None?
    requires NoLiveMarker(LinkCitations(t[1..], count), count)
    ensures NoLiveMarker(LinkCitations(t, count), count)
  {
    var rest := LinkCitations(t[1..], count);
    LinkAtOther(t, count);
    CopiedBracket(t, count);
    assert ([t[0]] + rest)[0..] == [t[0]] + rest;
    NoLiveGlue([t[0]], rest, count);
  }

  /** What one token spells out holds `x` only if the token is `x`. */
  lemma UnciteHeadKeeps(y: Tok, x: Tok)
    requires !x.Ch? && !x.CiteLink?
    ensures x in (if y.CiteLink? then [Ch('[')] + Chars(y.digits) + [Ch(']')] else [y]) <==> x == y
  {
    if y.CiteLink? {
      assert x !in Chars(y.digits);
    }
  }

  /** Spelling links out neither adds nor drops a tag or the cursor. */
  lemma {:induction false} UnciteKeeps(t: seq<Tok>, x: Tok)
    requires !x.Ch? && !x.CiteLink?
    ensures x in Uncite(t) <==> x in t
  {
    if t != [] {
      UnciteKeeps(t[1..], x);
      var h := if t[0].CiteLink? then [Ch('[')] + Chars(t[0].digits) + [Ch(']')] else [t[0]];
      assert Uncite(t) == h + Uncite(t[1..]);
      UnciteHeadKeeps(t[0], x);
      assert t == [t[0]] + t[1..];
    }
  }

  lemma {:induction false} BoldNoLinks(t: seq<Tok>)
    requires NoLinks(t)
    ensures NoLinks(Bold(t))
    decreases |t|
  {
    if |t| >= 2 {
      if MatchAt(t, 0) {
        var q := Closing(t[2..]).value;
        assert PairAt(t[2..], q);
        BoldNoLinks(t[2 + q + 2..]);
        assert NoLinks(t[2..2 + q]);
      } else {
        BoldNoLinks(t[1..]);
      }
    }
  }

  // ---------------------------------------------------------------------
  // One line: bold, then citations when they are on, then the list test.

  /** Both passes over one line. */
  function Inline(t: seq<Tok>, cite: bool, count: nat): seq<Tok> {
    if cite then LinkCitations(Bold(t), count) else Bold(t)
  }

  /** Spells links and tags back out. */
  function Spell(t: seq<Tok>): seq<Tok> {
    Unbold(Uncite(t))
  }

  /** Both passes only add markup. */
  lemma InlineRoundTrip(t: seq<Tok>, cite: bool, count: nat)
    requires Unmarked(t)
    ensures Spell(Inline(t, cite, count)) == t
  {
    BoldRoundTrip(t);
    assert NoLinks(t);
    BoldNoLinks(t);
    if cite {
      LinkRoundTrip(Bold(t), count);
    } else {
      UnciteNoLinks(Bold(t));
    }
  }

  predicate IsBlank(x: Tok) {
    x.Ch? && JsText.IsWhitespace(x.c)
  }

  /** `* ` or `- ` at the start of `u`. */
  predicate BulletStart(u: seq<Tok>) {
    |u| >= 2 && (u[0] == Ch('*') || u[0] == Ch('-')) && u[1] == Ch(' ')
  }

  /** `line.trim().startsWith('* ') || line.trim().startsWith('- ')` */
  predicate IsBullet(t: seq<Tok>) {
    BulletStart(JsText.TrimBy(t, IsBlank))
  }

  datatype Node = Paragraph(inline: seq<Tok>) | ListItem(inline: seq<Tok>)

  /** A bullet line becomes a list item holding `line.substring(2)`: the
      first two tokens are cut, whether or not the line was indented. */
  function Classify(t: seq<Tok>): Node {
    if IsBullet(t) then ListItem(t[2..]) else Paragraph(t)
  }

  /** The two tokens a list item cuts are characters of the text, never
      markup. */
  lemma BulletCutsText(t: seq<Tok>)
    requires IsBullet(t)
    ensures |t| >= 2 && t[0].Ch? && t[1].Ch?
  {
    JsText.TrimIsInfix(t, IsBlank);
    var k := JsText.TrimOffset(t, IsBlank);
    var u := JsText.TrimBy(t, IsBlank);
    assert u[0] == t[k] && u[1] == t[k + 1];
    if k == 1 {
      assert IsBlank(t[0]);
    } else if k >= 2 {
      assert IsBlank(t[0]) && IsBlank(t[1]);
    }
  }

  /** Neither pass touches a token that is neither `*` nor `[`. */
  predicate Inert(x: Tok) {
    x != Ch('*') && x != Ch('[')
  }

  lemma BoldInertHead(x: Tok, r: seq<Tok>)
    requires x != Ch('*')
    ensures Bold([x] + r) == [x] + Bold(r)
  {
    var t := [x] + r;
    assert t[1..] == r;
    if |t| >= 2 {
      assert !MatchAt(t, 0);
    }
  }

  lemma LinkInertHead(x: Tok, r: seq<Tok>, count: nat)
    requires x != Ch('[')
    ensures LinkCitations([x] + r, count) == [x] + LinkCitations(r, count)
  {
    var t := [x] + r;
    assert t[1..] == r;
    assert MarkerAt(t).None?;
  }

  /** A first token that starts neither a bold span nor a marker is
      copied as it is. */
  lemma HeadCopied(t: seq<Tok>, cite: bool, count: nat)
    requires t != [] && t[0] != Ch('[') && !MatchAt(t, 0)
    ensures Inline(t, cite, count) == [t[0]] + Inline(t[1..], cite, count)
  {
    var b := Bold(t[1..]);
    assert Bold(t) == [t[0]] + b;
    if cite {
      LinkInertHead(t[0], b, count);
    }
  }

  lemma {:induction false} BoldInertPrefix(p: seq<Tok>, r: seq<Tok>)
    requires forall i :: 0 <= i < |p| ==> Inert(p[i])
    ensures Bold(p + r) == p + Bold(r)
  {
    if p != [] {
      var t := p + r;
      assert t == [p[0]] + (p[1..] + r);
      BoldInertHead(p[0], p[1..] + r);
      BoldInertPrefix(p[1..], r);
      calc {
        Bold(t);
        [p[0]] + Bold(p[1..] + r);
        [p[0]] + (p[1..] + Bold(r));
        { assert p == [p[0]] + p[1..]; }
        p + Bold(r);
      }
    } else {
      assert p + r == r;
    }
  }

  lemma {:induction false} LinkInertPrefix(p: seq<Tok>, r: seq<Tok>, count: nat)
    requires forall i :: 0 <= i < |p| ==> Inert(p[i])
    ensures LinkCitations(p + r, count) == p + LinkCitations(r, count)
  {
    if p != [] {
      var t := p + r;
      assert t == [p[0]] + (p[1..] + r);
      LinkInertHead(p[0], p[1..] + r, count);
      LinkInertPrefix(p[1..], r, count);
      calc {
        LinkCitations(t, count);
        [p[0]] + LinkCitations(p[1..] + r, count);
        [p[0]] + (p[1..] + LinkCitations(r, count));
        { assert p == [p[0]] + p[1..]; }
        p + LinkCitations(r, count);
      }
    } else {
      assert p + r == r;
    }
  }

  lemma InertPrefix(p: seq<Tok>, r: seq<Tok>, cite: bool, count: nat)
    requires forall i :: 0 <= i < |p| ==> Inert(p[i])
    ensures Inline(p + r, cite, count) == p + Inline(r, cite, count)
  {
    BoldInertPrefix(p, r);
    if cite {
      LinkInertPrefix(p, Bold(r), count);
    }
  }

  /** What a line's first token turns into. */
  lemma InlineHead(r: seq<Tok>, cite: bool, count: nat)
    requires r != []
    ensures Inline(r, cite, count) != []
    ensures var h := Inline(r, cite, count)[0];
      h == r[0] || h.StrongOpen? || h.CiteLink?
  {
    var b := Bold(r);
    assert b != [] && (b[0] == r[0] || b[0].StrongOpen?) by {
      if |r| >= 2 && !MatchAt(r, 0) {
        assert b == [r[0]] + Bold(r[1..]);
      }
    }
    if cite {
      LinkFirst(b, count);
    }
  }

  /** Where no span opens, the first token is copied. */
  lemma BoldCopiesHead(t: seq<Tok>)
    requires |t| >= 2 && !PairAt(t, 0)
    ensures Bold(t) == [t[0]] + Bold(t[1..])
  {
  }

  /** The bold pass copies a bullet's two characters. */
  lemma BoldBulletHead(r: seq<Tok>)
    requires BulletStart(r)
    ensures Bold(r) == r[..2] + Bold(r[2..])
  {
    var y := r[2..];
    assert !PairAt(r, 0);
    BoldCopiesHead(r);
    assert r[1..] == [r[1]] + y;
    BoldInertHead(r[1], y);
    assert [r[0]] + ([r[1]] + Bold(y)) == r[..2] + Bold(y);
  }

  /** A bullet at the head of a line is left as it is. */
  lemma BulletHeadKept(r: seq<Tok>, cite: bool, count: nat)
    requires BulletStart(r)
    ensures Inline(r, cite, count) == r[..2] + Inline(r[2..], cite, count)
  {
    var y := r[2..];
    BoldBulletHead(r);
    if cite {
      assert r[..2] + Bold(y) == [r[0]] + ([r[1]] + Bold(y));
      LinkInertHead(r[0], [r[1]] + Bold(y), count);
      LinkInertHead(r[1], Bold(y), count);
      assert [r[0]] + ([r[1]] + LinkCitations(Bold(y), count)) == r[..2] + LinkCitations(Bold(y), count);
    }
  }

  /** A rendered line that starts with a bullet came from one that did. */
  lemma BulletHeadOrigin(r: seq<Tok>, cite: bool, count: nat)
    requires BulletStart(Inline(r, cite, count))
    ensures BulletStart(r)
  {
    InlineHead(r, cite, count);
    var x := Inline(r, cite, count);
    assert r[0] == x[0];
    assert !MatchAt(r, 0) by {
      if MatchAt(r, 0) {
        assert Bold(r)[0] == StrongOpen;
        if cite {
          LinkFirst(Bold(r), count);
        }
      }
    }
    HeadCopied(r, cite, count);
    assert Inline([], cite, count) == [];
    InlineHead(r[1..], cite, count);
  }

  /** Blank tokens are inert, so a line's indentation passes through. */
  lemma BlankPrefix(t: seq<Tok>, cite: bool, count: nat)
    ensures var k := JsText.TrimOffset(t, IsBlank);
      k <= |t| && Inline(t, cite, count) == t[..k] + Inline(t[k..], cite, count)
  {
    var s := JsText.TrimStart(t, IsBlank);
    var k := |t| - |s|;
    assert forall i :: 0 <= i < k ==> IsBlank(t[i]);
    BlanksInert(t, k, cite, count);
  }

  /** Leading blanks pass through both inline passes untouched. */
  lemma BlanksInert(t: seq<Tok>, k: nat, cite: bool, count: nat)
    requires k <= |t| && forall i :: 0 <= i < k ==> IsBlank(t[i])
    ensures Inline(t, cite, count) == t[..k] + Inline(t[k..], cite, count)
  {
    var p := t[..k];
    assert forall i :: 0 <= i < |p| ==> Inert(p[i]) by {
      forall i | 0 <= i < |p| ensures Inert(p[i]) {
        assert p[i] == t[i] && IsBlank(t[i]);
      }
    }
    InertPrefix(p, t[k..], cite, count);
    assert t == p + t[k..];
  }

  /** Some token of `y` is not blank. */
  predicate HasText(y: seq<Tok>) {
    exists i :: 0 <= i < |y| && !IsBlank(y[i])
  }

  /** Trimming the end keeps a bullet exactly when text follows it. */
  lemma TrimEndBullet(x: seq<Tok>)
    ensures BulletStart(JsText.TrimEnd(x, IsBlank)) <==> BulletStart(x) && HasText(x[2..])
  {
    var u := JsText.TrimEnd(x, IsBlank);
    var m := |u|;
    if BulletStart(u) {
      assert u[0] == x[0] && u[1] == x[1];
      assert !IsBlank(u[m - 1]);
      assert x[2..][m - 3] == x[m - 1];
    }
    if BulletStart(x) && HasText(x[2..]) {
      var j :| 0 <= j < |x[2..]| && !IsBlank(x[2..][j]);
      assert x[2..][j] == x[j + 2];
      assert m > j + 2;
      assert u[0] == x[0] && u[1] == x[1];
    }
  }

  /** The passes keep a line's text from being all blank or not. */
  lemma HasTextKept(y: seq<Tok>, cite: bool, count: nat)
    ensures HasText(Inline(y, cite, count)) <==> HasText(y)
  {
    BlankPrefix(y, cite, count);
    var k := JsText.TrimOffset(y, IsBlank);
    var r := y[k..];
    var x := Inline(y, cite, count);
    assert r == JsText.TrimStart(y, IsBlank);
    if r == [] {
      assert Inline(r, cite, count) == [];
      assert x == y[..k];
      assert forall i :: 0 <= i < |y| ==> IsBlank(y[i]);
    } else {
      InlineHead(r, cite, count);
      assert y[k] == r[0] && !IsBlank(r[0]);
      assert x[k] == Inline(r, cite, count)[0];
    }
  }

  /** A line is a list item exactly when its own text, trimmed, starts
      with `* ` or `- `: the bold and citation passes never make or
      break a bullet. */
  lemma ListItemIffBullet(t: seq<Tok>, cite: bool, count: nat)
    ensures IsBullet(Inline(t, cite, count)) <==> IsBullet(t)
  {
    BlankPrefix(t, cite, count);
    var k := JsText.TrimOffset(t, IsBlank);
    var r := t[..k];
    var rest := t[k..];
    var x := Inline(rest, cite, count);
    assert rest == JsText.TrimStart(t, IsBlank);
    JsText.TrimStartSkipsBlanks(r, x, IsBlank);
    if rest != [] {
      InlineHead(rest, cite, count);
    } else {
      assert x == [];
    }
    assert JsText.TrimStart(x, IsBlank) == x;
    TrimmedBullet(rest, cite, count);
  }

  /** On a line that starts with text, the bullet test after trimming the
      end agrees before and after the inline passes. */
  lemma TrimmedBullet(r: seq<Tok>, cite: bool, count: nat)
    ensures BulletStart(JsText.TrimEnd(Inline(r, cite, count), IsBlank))
        <==> BulletStart(JsText.TrimEnd(r, IsBlank))
  {
    var x := Inline(r, cite, count);
    TrimEndBullet(r);
    TrimEndBullet(x);
    if BulletStart(r) {
      BulletHeadKept(r, cite, count);
      assert x[2..] == Inline(r[2..], cite, count);
      HasTextKept(r[2..], cite, count);
    } else if BulletStart(x) {
      BulletHeadOrigin(r, cite, count);
    }
  }


  /** Cutting two characters off the front cuts them off the spelled-out
      text too. */
  lemma SpellCut(x: seq<Tok>)
    requires |x| >= 2 && x[0].Ch? && x[1].Ch?
    ensures Spell(x) == [x[0], x[1]] + Spell(x[2..])
  {
    assert x[1..][0] == x[1] && x[1..][1..] == x[2..];
    assert Uncite(x) == [x[0]] + ([x[1]] + Uncite(x[2..]));
    var u := Uncite(x[2..]);
    assert Uncite(x)[1..][1..] == u;
    assert Unbold(Uncite(x)) == [x[0]] + ([x[1]] + Unbold(u));
  }

  /** A line is a list item exactly when its text is a bullet, and
      spelling its node out gives the line back, less a cut bullet. */
  lemma LineShape(t: seq<Tok>, cite: bool, count: nat)
    requires Unmarked(t)
    ensures var n := Classify(Inline(t, cite, count));
      && (n.ListItem? <==> IsBullet(t))
      && Spell(n.inline) == (if n.ListItem? then t[2..] else t)
  {
    var x := Inline(t, cite, count);
    ListItemIffBullet(t, cite, count);
    InlineRoundTrip(t, cite, count);
    if IsBullet(x) {
      BulletCutsText(x);
      SpellCut(x);
      assert Spell(x)[2..] == Spell(x[2..]);
    }
  }

  lemma InlineKeepsCursor(t: seq<Tok>, cite: bool, count: nat)
    requires Unmarked(t)
    ensures Cursor in Inline(t, cite, count) <==> Cursor in t
  {
    var x := Inline(t, cite, count);
    InlineRoundTrip(t, cite, count);
    UnboldKeeps(Uncite(x), Cursor);
    UnciteKeeps(x, Cursor);
  }

  lemma CutKeepsCursor(x: seq<Tok>)
    requires |x| >= 2 && x[0].Ch? && x[1].Ch?
    ensures Cursor in x[2..] <==> Cursor in x
  {
    assert x == [x[0], x[1]] + x[2..];
  }

  lemma ClassifyKeepsCursor(x: seq<Tok>)
    ensures Cursor in Classify(x).inline <==> Cursor in x
  {
    if IsBullet(x) {
      BulletCutsText(x);
      CutKeepsCursor(x);
      assert Classify(x) == ListItem(x[2..]);
    } else {
      assert Classify(x) == Paragraph(x);
    }
  }

  /** The cursor is kept by both passes and never cut. */
  lemma LineCursor(t: seq<Tok>, cite: bool, count: nat)
    requires Unmarked(t)
    ensures Cursor in Classify(Inline(t, cite, count)).inline <==> Cursor in t
  {
    InlineKeepsCursor(t, cite, count);
    ClassifyKeepsCursor(Inline(t, cite, count));
  }

  /** Links appear only when citations are on, and then point at a source
      and leave no marker naming one unlinked. */
  lemma LineLinks(t: seq<Tok>, cite: bool, count: nat)
    requires Unmarked(t)
    ensures var n := Classify(Inline(t, cite, count));
      && (!cite ==> NoLinks(n.inline))
      && (cite ==> LinksValid(n.inline, count) && NoLiveMarker(n.inline, count))
  {
    var x := Inline(t, cite, count);
    assert NoLinks(t);
    BoldNoLinks(t);
    if cite {
      LinksInRange(Bold(t), count);
      NoLiveMarkerLeft(Bold(t), count);
    }
    if IsBullet(x) {
      CutKeepsLinks(x, count);
    }
  }

  /** Cutting the first two tokens keeps what holds of every link and
      every position. */
  lemma CutKeepsLinks(x: seq<Tok>, count: nat)
    requires |x| >= 2
    ensures NoLinks(x) ==> NoLinks(x[2..])
    ensures LinksValid(x, count) ==> LinksValid(x[2..], count)
    ensures NoLiveMarker(x, count) ==> NoLiveMarker(x[2..], count)
  {
    forall k | 0 <= k <= |x[2..]| ensures x[2..][k..] == x[k + 2..] {
    }
    forall k | 0 <= k < |x[2..]| ensures x[2..][k] == x[k + 2] {
    }
  }

  // ---------------------------------------------------------------------
  // The whole text

  /** `s.split('\n')` */
  function Split(s: string): (lines: seq<string>)
    ensures |lines| > 0
    ensures forall i :: 0 <= i < |lines| ==> '\n' !in lines[i]
  {
    if s == [] then [""]
    else
      var rest := Split(s[1..]);
      if s[0] == '\n' then [""] + rest else [[s[0]] + rest[0]] + rest[1..]
  }

  /** `lines.join('\n')` */
  function Join(lines: seq<string>): string
    requires |lines| > 0
  {
    if |lines| == 1 then lines[0] else lines[0] + "\n" + Join(lines[1..])
  }

  /** Joining the pieces gives the text back. */
  lemma {:induction false} SplitJoin(s: string)
    ensures Join(Split(s)) == s
  {
    if s != [] {
      var rest := Split(s[1..]);
      SplitJoin(s[1..]);
      if s[0] == '\n' {
        assert ([""] + rest)[1..] == rest;
      } else {
        var lines := [[s[0]] + rest[0]] + rest[1..];
        if |rest| > 1 {
          assert lines[1..] == rest[1..];
        }
      }
    }
  }

  lemma {:induction false} SplitNoNewline(x: string, z: string)
    requires '\n' !in x
    ensures Split(x + z) == [x + Split(z)[0]] + Split(z)[1..]
  {
    if x == [] {
      assert x + z == z;
      assert Split(z) == [Split(z)[0]] + Split(z)[1..];
      assert x + Split(z)[0] == Split(z)[0];
    } else {
      assert (x + z)[0] == x[0] && (x + z)[1..] == x[1..] + z;
      SplitNoNewline(x[1..], z);
      var r := Split(x[1..] + z);
      assert Split(x + z) == [[x[0]] + r[0]] + r[1..];
      assert r[0] == x[1..] + Split(z)[0] && r[1..] == Split(z)[1..];
      assert [x[0]] + (x[1..] + Split(z)[0]) == x + Split(z)[0];
    }
  }

  /** Splitting lines that hold no newline gives them back. */
  lemma {:induction false} JoinSplit(lines: seq<string>)
    requires |lines| > 0 && forall i :: 0 <= i < |lines| ==> '\n' !in lines[i]
    ensures Split(Join(lines)) == lines
  {
    if |lines| == 1 {
      SplitNoNewline(lines[0], "");
      assert lines[0] + "" == lines[0];
    } else {
      JoinSplit(lines[1..]);
      var z := "\n" + Join(lines[1..]);
      assert z[0] == '\n' && z[1..] == Join(lines[1..]);
      assert Join(lines) == lines[0] + z;
      SplitNoNewline(lines[0], z);
      assert Split(z) == [""] + Split(Join(lines[1..]));
      assert Split(z)[0] == "" && Split(z)[1..] == lines[1..];
      assert lines[0] + "" == lines[0];
      assert lines == [lines[0]] + lines[1..];
    }
  }

  /** There is one more line than there are newlines. */
  lemma {:induction false} SplitCount(s: string)
    ensures |Split(s)| == multiset(s)['\n'] + 1
  {
    if s != [] {
      SplitCount(s[1..]);
      assert s == [s[0]] + s[1..];
      assert multiset(s) == multiset([s[0]]) + multiset(s[1..]);
    }
  }

  /** Line `i` as tokens; the streaming cursor goes at the end of the last. */
  function LineTokens(lines: seq<string>, i: nat, cursor: bool): (t: seq<Tok>)
    requires i < |lines|
    ensures Unmarked(t)
    ensures forall k :: 0 <= k < |t| - 1 ==> t[k].Ch?
  {
    Chars(lines[i]) + (if cursor && i == |lines| - 1 then [Cursor] else [])
  }

  /** `renderContent(content)`: the cursor is appended while an AI message
      is loading, the text is cut at newlines, and each line goes through
      bold, then citations (only for an AI message with sources), then the
      list test. */
  function RenderContent(content: string, isAI: bool, isLoading: bool, sources: Option<seq<Source>>): seq<Node> {
    var lines := Split(content);
    var cite := isAI && sources.Some? && |sources.value| > 0;
    var count := if sources.Some? then |sources.value| else 0;
    seq(|lines|, i requires 0 <= i < |lines| =>
      Classify(Inline(LineTokens(lines, i, isAI && isLoading), cite, count)))
  }

  /** One node per line, and each spells out to its line (less a cut
      bullet); a line is a list item exactly when its text is a bullet. */
  lemma RenderContentLines(content: string, isAI: bool, isLoading: bool, sources: Option<seq<Source>>)
    ensures var lines, r := Split(content), RenderContent(content, isAI, isLoading, sources);
      && |r| == multiset(content)['\n'] + 1
      && forall i :: 0 <= i < |r| ==>
           var t := LineTokens(lines, i, isAI && isLoading);
           && (r[i].ListItem? <==> IsBullet(t))
           && Spell(r[i].inline) == (if r[i].ListItem? then t[2..] else t)
  {
    var lines := Split(content);
    SplitCount(content);
    var cite := isAI && sources.Some? && |sources.value| > 0;
    var count := if sources.Some? then |sources.value| else 0;
    var r := RenderContent(content, isAI, isLoading, sources);
    forall i | 0 <= i < |r|
      ensures var t := LineTokens(lines, i, isAI && isLoading);
        && (r[i].ListItem? <==> IsBullet(t))
        && Spell(r[i].inline) == (if r[i].ListItem? then t[2..] else t)
    {
      LineShape(LineTokens(lines, i, isAI && isLoading), cite, count);
    }
  }

  /** Only the last line carries the cursor, and only when it is on. */
  lemma LineTokensCursor(lines: seq<string>, i: nat, cursor: bool)
    requires i < |lines|
    ensures Cursor in LineTokens(lines, i, cursor) <==> cursor && i == |lines| - 1
  {
    assert Cursor !in Chars(lines[i]);
  }

  /** The streaming cursor sits in the last node exactly while an AI
      message is loading, and nowhere else. */
  lemma RenderContentCursor(content: string, isAI: bool, isLoading: bool, sources: Option<seq<Source>>)
    ensures var r := RenderContent(content, isAI, isLoading, sources);
      forall i :: 0 <= i < |r| ==> (Cursor in r[i].inline <==> isAI && isLoading && i == |r| - 1)
  {
    var lines := Split(content);
    var cite := isAI && sources.Some? && |sources.value| > 0;
    var count := if sources.Some? then |sources.value| else 0;
    var r := RenderContent(content, isAI, isLoading, sources);
    forall i | 0 <= i < |r|
      ensures Cursor in r[i].inline <==> isAI && isLoading && i == |r| - 1
    {
      var t := LineTokens(lines, i, isAI && isLoading);
      assert r[i] == Classify(Inline(t, cite, count));
      LineCursor(t, cite, count);
      LineTokensCursor(lines, i, isAI && isLoading);
    }
  }

  /** Links appear only in an AI message with sources; there each points
      at one of them, and no marker naming one is left unlinked. */
  lemma RenderContentLinks(content: string, isAI: bool, isLoading: bool, sources: Option<seq<Source>>)
    ensures var r := RenderContent(content, isAI, isLoading, sources);
      var cite := isAI && sources.Some? && |sources.value| > 0;
      forall i :: 0 <= i < |r| ==>
        && (!cite ==> NoLinks(r[i].inline))
        && (cite ==> LinksValid(r[i].inline, |sources.value|) && NoLiveMarker(r[i].inline, |sources.value|))
  {
    var lines := Split(content);
    var cite := isAI && sources.Some? && |sources.value| > 0;
    var count := if sources.Some? then |sources.value| else 0;
    var r := RenderContent(content, isAI, isLoading, sources);
    forall i | 0 <= i < |r|
      ensures && (!cite ==> NoLinks(r[i].inline))
              && (cite ==> LinksValid(r[i].inline, count) && NoLiveMarker(r[i].inline, count))
    {
      LineLinks(LineTokens(lines, i, isAI && isLoading), cite, count);
    }
  }
}
