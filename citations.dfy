/** Citation deduplication: `Array.from(new Map(sources.map(s => [s.uri, s])).values())`.
    A JavaScript `Map` keeps its keys in first-insertion order and, when a
    key is set again, replaces its value in place; `Dedup` replays those
    insertions one source at a time. */
module Citations {
  import opened ChatTypes

  /** The uris of a source list, as a set. */
  function Uris(s: seq<Source>): set<string> {
    set i | 0 <= i < |s| :: s[i].uri
  }

  /** No uri occurs twice. */
  predicate DistinctUris(s: seq<Source>) {
    forall i, j :: 0 <= i < j < |s| ==> s[i].uri != s[j].uri
  }

  /** Position of the entry with key `uri`, if the map holds one. */
  function IndexOf(entries: seq<Source>, uri: string): (p: Option<nat>)
    ensures p.Some? ==> p.value < |entries| && entries[p.value].uri == uri
    ensures p.None? <==> uri !in Uris(entries)
  {
    if entries == [] then None
    else if entries[0].uri == uri then Some(0)
    else match IndexOf(entries[1..], uri)
      case Some(k) => Some(k + 1)
      case None => None
  }

  /** `map.set(s.uri, s)`: overwrite the value in place when the key is
      present, otherwise add a new last entry. */
  function Insert(entries: seq<Source>, s: Source): seq<Source> {
    match IndexOf(entries, s.uri)
    case Some(p) => entries[p := s]
    case None => entries + [s]
  }

  /** The values of the map built from `s`, in key order. */
  function Dedup(s: seq<Source>): seq<Source> {
    if s == [] then [] else Insert(Dedup(s[..|s| - 1]), s[|s| - 1])
  }

  /** `indexOf` by uri: the position of the first source carrying `uri`,
      or `|s|` when there is none. */
  function FirstIndex(s: seq<Source>, uri: string): (k: nat)
    ensures k <= |s|
    ensures k < |s| <==> uri in Uris(s)
    ensures k < |s| ==> s[k].uri == uri
    ensures forall j :: 0 <= j < k ==> s[j].uri != uri
  {
    if s == [] then 0
    else if s[0].uri == uri then 0
    else
      var k := 1 + FirstIndex(s[1..], uri);
      assert forall j :: 1 <= j < |s| ==> s[j] == s[1..][j - 1];
      assert uri in Uris(s) ==> uri in Uris(s[1..]) by {
        if uri in Uris(s) {
          var i :| 0 <= i < |s| && s[i].uri == uri;
          assert s[1..][i - 1] == s[i];
        }
      }
      k
  }

  /** The last source in `s` carrying `uri`. */
  function LastWith(s: seq<Source>, uri: string): (x: Source)
    requires uri in Uris(s)
    ensures x.uri == uri
  {
    if s[|s| - 1].uri == uri then s[|s| - 1]
    else
      assert uri in Uris(s[..|s| - 1]) by {
        var i :| 0 <= i < |s| && s[i].uri == uri;
        assert s[..|s| - 1][i] == s[i];
      }
      LastWith(s[..|s| - 1], uri)
  }

  lemma NotInUris(s: seq<Source>, uri: string)
    requires forall i :: 0 <= i < |s| ==> s[i].uri != uri
    ensures uri !in Uris(s)
  {
  }

  lemma UrisAppend(s: seq<Source>, x: Source)
    ensures Uris(s + [x]) == Uris(s) + {x.uri}
  {
    var t := s + [x];
    forall u | u in Uris(t) ensures u in Uris(s) + {x.uri} {
      var i :| 0 <= i < |t| && t[i].uri == u;
      if i < |s| { assert s[i] == t[i]; }
    }
    forall u | u in Uris(s) ensures u in Uris(t) {
      var i :| 0 <= i < |s| && s[i].uri == u;
      assert t[i] == s[i];
    }
    assert t[|s|] == x;
  }

  /** Adding a source at the end moves no first occurrence; the new uri,
      if new, is first seen at the end. */
  lemma FirstIndexAppend(s: seq<Source>, x: Source, uri: string)
    ensures FirstIndex(s + [x], uri) ==
      if uri in Uris(s) then FirstIndex(s, uri)
      else if uri == x.uri then |s| else |s| + 1
  {
    var t := s + [x];
    UrisAppend(s, x);
    var k, k' := FirstIndex(s, uri), FirstIndex(t, uri);
    assert forall j :: 0 <= j < |s| ==> t[j] == s[j];
    if k < |s| {
      assert t[k].uri == uri;
    } else if uri == x.uri {
      assert t[|s|].uri == uri;
    }
  }

  /** What one insertion does to the entries: same keys plus the new one,
      the new value under its key, every other entry untouched, and a new
      key goes last. */
  lemma InsertEffect(entries: seq<Source>, s: Source)
    requires DistinctUris(entries)
    ensures var r := Insert(entries, s);
      && DistinctUris(r)
      && Uris(r) == Uris(entries) + {s.uri}
      && (s.uri in Uris(entries) ==> |r| == |entries|)
      && (s.uri !in Uris(entries) ==> r == entries + [s])
      && (forall i :: 0 <= i < |r| ==> r[i] == if r[i].uri == s.uri then s else entries[i])
  {
    var r := Insert(entries, s);
    UrisAppend(entries, s);
    match IndexOf(entries, s.uri)
    case Some(p) =>
      forall u | u in Uris(r) ensures u in Uris(entries) {
        var i :| 0 <= i < |r| && r[i].uri == u;
        if i == p { assert entries[p].uri == u; } else { assert entries[i] == r[i]; }
      }
      forall u | u in Uris(entries) ensures u in Uris(r) {
        var i :| 0 <= i < |entries| && entries[i].uri == u;
        if i == p { assert r[p].uri == u; } else { assert entries[i] == r[i]; }
      }
    case None =>
      forall i | 0 <= i < |entries| ensures entries[i].uri != s.uri {
        assert entries[i].uri in Uris(entries);
      }
  }

  /** The deduplicated list holds each uri once, exactly the uris of the
      input, each with the value of its last occurrence. */
  lemma {:induction false} DedupKeysAndValues(s: seq<Source>)
    ensures DistinctUris(Dedup(s))
    ensures Uris(Dedup(s)) == Uris(s)
    ensures forall i :: 0 <= i < |Dedup(s)| ==> Dedup(s)[i] == LastWith(s, Dedup(s)[i].uri)
  {
    if s != [] {
      var p, x := s[..|s| - 1], s[|s| - 1];
      assert s == p + [x];
      DedupKeysAndValues(p);
      InsertEffect(Dedup(p), x);
      UrisAppend(p, x);
      var r := Dedup(s);
      forall i | 0 <= i < |r| ensures r[i] == LastWith(s, r[i].uri) {
        if r[i].uri != x.uri {
          assert r[i] == Dedup(p)[i];
        }
      }
    }
  }

  /** One insertion keeps the first-seen order: an existing key keeps its
      place, a new key goes last and was first seen last. */
  lemma FirstSeenOrderStep(p: seq<Source>, x: Source)
    requires DistinctUris(Dedup(p)) && Uris(Dedup(p)) == Uris(p)
    requires forall i, j :: 0 <= i < j < |Dedup(p)| ==>
      FirstIndex(p, Dedup(p)[i].uri) < FirstIndex(p, Dedup(p)[j].uri)
    ensures forall i, j :: 0 <= i < j < |Dedup(p + [x])| ==>
      FirstIndex(p + [x], Dedup(p + [x])[i].uri) < FirstIndex(p + [x], Dedup(p + [x])[j].uri)
  {
    var s := p + [x];
    assert s[..|s| - 1] == p;
    var d, r := Dedup(p), Dedup(s);
    assert r == Insert(d, x);
    InsertEffect(d, x);
    forall i, j | 0 <= i < j < |r| ensures FirstIndex(s, r[i].uri) < FirstIndex(s, r[j].uri) {
      InsertOrderPair(p, x, d, i, j);
    }
  }

  /** The order of one pair of entries after an insertion. */
  lemma InsertOrderPair(p: seq<Source>, x: Source, d: seq<Source>, i: nat, j: nat)
    requires DistinctUris(d) && Uris(d) == Uris(p)
    requires forall i, j :: 0 <= i < j < |d| ==> FirstIndex(p, d[i].uri) < FirstIndex(p, d[j].uri)
    requires i < j < |Insert(d, x)|
    ensures FirstIndex(p + [x], Insert(d, x)[i].uri) < FirstIndex(p + [x], Insert(d, x)[j].uri)
  {
    var r := Insert(d, x);
    InsertEffect(d, x);
    assert d[i].uri in Uris(d);
    FirstIndexAppend(p, x, d[i].uri);
    if j < |d| {
      assert d[j].uri in Uris(d);
      assert r[i].uri == d[i].uri && r[j].uri == d[j].uri;
      FirstIndexAppend(p, x, d[j].uri);
    } else {
      assert r[i] == d[i] && r[j] == x && x.uri !in Uris(p);
      FirstIndexAppend(p, x, x.uri);
    }
  }

  /** Entries come out in the order their uris first appeared. */
  lemma {:induction false} DedupFirstSeenOrder(s: seq<Source>)
    ensures forall i, j :: 0 <= i < j < |Dedup(s)| ==>
      FirstIndex(s, Dedup(s)[i].uri) < FirstIndex(s, Dedup(s)[j].uri)
  {
    if s != [] {
      var p, x := s[..|s| - 1], s[|s| - 1];
      assert s == p + [x];
      DedupKeysAndValues(p);
      DedupFirstSeenOrder(p);
      FirstSeenOrderStep(p, x);
    }
  }

  /** A list whose uris are already distinct passes through unchanged. */
  lemma {:induction false} DedupOfDistinct(s: seq<Source>)
    requires DistinctUris(s)
    ensures Dedup(s) == s
  {
    if s != [] {
      var p, x := s[..|s| - 1], s[|s| - 1];
      assert s == p + [x];
      DedupOfDistinct(p);
      assert x.uri !in Uris(p) by {
        forall i | 0 <= i < |p| ensures p[i].uri != x.uri {
          assert p[i] == s[i];
        }
        NotInUris(p, x.uri);
      }
    }
  }

  /** Deduplicating twice is deduplicating once. */
  lemma DedupIdempotent(s: seq<Source>)
    ensures Dedup(Dedup(s)) == Dedup(s)
  {
    DedupKeysAndValues(s);
    DedupOfDistinct(Dedup(s));
  }

  /** Two sources with one uri: the later title is kept, in the first place. */
  lemma DedupLastTitleWins(a: Source, b: Source)
    requires a.uri == b.uri
    ensures Dedup([a, b]) == [b]
  {
    assert [a, b][..1] == [a] && [a][..0] == [];
    assert Dedup([a]) == [a];
    assert IndexOf([a], b.uri) == Some(0);
  }
}
