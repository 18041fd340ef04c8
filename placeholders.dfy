/** The placeholder rewriter of VerticaStatement::parseQuery: a SQL template with
    positional (`?`) or named (`:name`) markers becomes positional SQL plus
    `paramMap`, the map from bind identifier to 0-based slot.

    Finding the markers (skipping quoted literals) is Doctrine's
    SQLParserUtils::getPlaceholderPositions, which is not part of this model:
    its two answers are inputs here, the offsets of the `?` markers and, in
    order, the offset of each `:` with the name that follows it. */
module Placeholders {
  import opened Common

  /** A named marker as the scanner reports it: the offset of its ':' and the name without it. */
  datatype Placeholder = Placeholder(offset: nat, name: string)

  /** A bind identifier: a 1-based position or a parameter name. */
  datatype Key = Pos(n: int) | Name(s: string)

  /** The canonical form of a statement's SQL. */
  datatype Parsed = Parsed(sql: string, paramMap: map<Key, nat>)

  datatype ParseError = MixedParameters

  /** paramMap for n positional markers: 1 -> 0, ..., n -> n - 1. */
  function PositionalMap(n: nat): (m: map<Key, nat>)
    ensures |m| == n
    ensures forall key :: key in m <==> key.Pos? && 1 <= key.n <= n
    ensures forall k :: 1 <= k <= n ==> m[Pos(k)] == k - 1
  {
    if n == 0 then map[]
    else
      var prev := PositionalMap(n - 1);
      assert Pos(n) !in prev;
      prev[Pos(n) := n - 1]
  }

  /** One turn of the rewrite loop: pop the last piece and push the text before
      the marker and the text after it. The cut before the marker counts from
      the end of the piece; the cut after it uses the offset into the whole
      query, whatever piece it is applied to. */
  function Cut(parts: seq<string>, queryLength: nat, p: Placeholder): (r: seq<string>)
    requires parts != []
    ensures |r| == |parts| + 1
  {
    var last := parts[|parts| - 1];
    parts[..|parts| - 1]
      + [SubstrLen(last, 0, -(queryLength - p.offset)), Substr(last, p.offset + |p.name| + 1)]
  }

  /** queryParts after the loop has handled the given markers: always one
      piece more than markers handled. */
  function Pieces(query: string, named: seq<Placeholder>): (parts: seq<string>)
    ensures |parts| == |named| + 1
    decreases |named|
  {
    if named == [] then [query]
    else Cut(Pieces(query, named[..|named| - 1]), |query|, named[|named| - 1])
  }

  /** paramMap after the loop: each marker's name mapped to its index, a later
      marker overwriting an earlier one. */
  function NamedMap(named: seq<Placeholder>): map<Key, nat>
    decreases |named|
  {
    if named == [] then map[]
    else NamedMap(named[..|named| - 1])[Name(named[|named| - 1].name) := |named| - 1]
  }

  /** Marker `slot` carries the name `key`, and no later marker does. */
  predicate LastWithName(named: seq<Placeholder>, key: Key, slot: nat)
  {
    slot < |named| && Name(named[slot].name) == key
    && forall j :: slot < j < |named| ==> Name(named[j].name) != key
  }

  /** Every key of the named paramMap is a marker's name, and its slot is the
      index of the LAST marker that carries it. */
  lemma {:induction false} NamedMapLastOccurrence(named: seq<Placeholder>)
    ensures forall key :: key in NamedMap(named) ==> key.Name? && LastWithName(named, key, NamedMap(named)[key])
    ensures forall i :: 0 <= i < |named| ==> Name(named[i].name) in NamedMap(named)
    decreases |named|
  {
    if named != [] {
      var n := |named| - 1;
      var front := named[..n];
      NamedMapLastOccurrence(front);
      var m, mf, last := NamedMap(named), NamedMap(front), Name(named[n].name);
      assert m == mf[last := n];
      forall key | key in m
        ensures key.Name? && LastWithName(named, key, m[key])
      {
        if key != last {
          LastWithNameExtends(named, key, mf[key]);
        }
      }
      forall i | 0 <= i < |named|
        ensures Name(named[i].name) in m
      {
        if i < n {
          assert front[i] == named[i];
        }
      }
    }
  }

  lemma LastWithNameExtends(named: seq<Placeholder>, key: Key, slot: nat)
    requires named != []
    requires LastWithName(named[..|named| - 1], key, slot)
    requires Name(named[|named| - 1].name) != key
    ensures LastWithName(named, key, slot)
  {
    var front := named[..|named| - 1];
    assert front[slot] == named[slot];
    forall j | slot < j < |named|
      ensures Name(named[j].name) != key
    {
      if j < |named| - 1 {
        assert front[j] == named[j];
      }
    }
  }

  /** What parseQuery leaves in `query` and `paramMap`, or the syntax error it throws. */
  function Rewrite(query: string, positional: seq<nat>, named: seq<Placeholder>): (r: Result<Parsed, ParseError>)
    ensures r.Err? <==> positional != [] && named != []
    ensures r.Ok? && named == [] ==> r.value.sql == query
    ensures r.Ok? && positional != [] ==>
              |r.value.paramMap| == |positional|
              && forall k :: 1 <= k <= |positional| ==> Pos(k) in r.value.paramMap && r.value.paramMap[Pos(k)] == k - 1
    ensures r.Ok? && positional == [] && named == [] ==> r.value.paramMap == map[]
    ensures r.Ok? && named != [] ==>
              r.value.sql == Join(Pieces(query, named), "?") && r.value.paramMap == NamedMap(named)
  {
    if positional != [] then
      if named != [] then Err(MixedParameters) else Ok(Parsed(query, PositionalMap(|positional|)))
    else if named != [] then
      Ok(Parsed(Join(Pieces(query, named), "?"), NamedMap(named)))
    else
      Ok(Parsed(query, map[]))
  }

  /** parseQuery, as the source runs it: the named branch pops and pushes
      `queryParts` marker by marker and records each name's slot. */
  method ParseQuery(query: string, positional: seq<nat>, named: seq<Placeholder>)
    returns (r: Result<Parsed, ParseError>)
    ensures r == Rewrite(query, positional, named)
  {
    if positional != [] {
      if named != [] {
        return Err(MixedParameters);
      }
      return Ok(Parsed(query, PositionalMap(|positional|)));
    }
    if named == [] {
      return Ok(Parsed(query, map[]));
    }
    var queryLength := |query|;
    var queryParts := [query];
    var paramMap: map<Key, nat> := map[];
    var i := 0;
    while i < |named|
      invariant 0 <= i <= |named|
      invariant queryParts == Pieces(query, named[..i])
      invariant paramMap == NamedMap(named[..i])
    {
      var p := named[i];
      PrefixStep(query, named, i);
      paramMap := paramMap[Name(p.name) := i];
      var lastPart := queryParts[|queryParts| - 1];
      var head := queryParts[..|queryParts| - 1];
      var left := SubstrLen(lastPart, 0, -(queryLength - p.offset));
      var right := Substr(lastPart, p.offset + |p.name| + 1);
      PushTwo(head, left, right);
      queryParts := head;
      queryParts := queryParts + [left];
      queryParts := queryParts + [right];
      i := i + 1;
    }
    assert named[..|named|] == named;
    return Ok(Parsed(Join(queryParts, "?"), paramMap));
  }

  lemma PushTwo<T>(h: seq<T>, a: T, b: T)
    ensures h + [a] + [b] == h + [a, b]
  {
  }

  /** Handling one more marker is one more Cut and one more map entry. */
  lemma PrefixStep(query: string, named: seq<Placeholder>, i: nat)
    requires i < |named|
    ensures Pieces(query, named[..i + 1]) == Cut(Pieces(query, named[..i]), |query|, named[i])
    ensures NamedMap(named[..i + 1]) == NamedMap(named[..i])[Name(named[i].name) := i]
  {
    assert named[..i + 1][..i] == named[..i];
  }

  /** With exactly one named marker `:p` at offset k, the marker is spliced out
      and replaced by a single `?`. */
  lemma SingleNamedSplice(query: string, k: nat, p: string)
    requires k + 1 + |p| <= |query|
    ensures Rewrite(query, [], [Placeholder(k, p)]).value.sql == query[..k] + "?" + query[k + 1 + |p|..]
  {
    OnePiece(query, k, p);
    JoinCons(query[..k], [query[k + 1 + |p|..]], "?");
  }

  /** With two named markers the first is spliced out correctly, but the text
      kept after the second starts at the sum of the two end offsets instead of
      at the end of the second marker: the second cut applies the marker's
      offset in the whole query to the piece left after the first marker. */
  lemma TwoNamedMarkers(q: string, k1: nat, p1: string, k2: nat, p2: string)
    requires k1 + 1 + |p1| <= k2 && k2 + 1 + |p2| <= |q|
    ensures Join(Pieces(q, [Placeholder(k1, p1), Placeholder(k2, p2)]), "?")
            == q[..k1] + "?" + q[k1 + 1 + |p1|..k2] + "?" + Substr(q, (k1 + 1 + |p1|) + (k2 + 1 + |p2|))
  {
    TwoPieces(q, k1, p1, k2, p2);
    JoinThree(q[..k1], q[k1 + 1 + |p1|..k2], Substr(q, (k1 + 1 + |p1|) + (k2 + 1 + |p2|)), "?");
  }

  lemma TwoPieces(q: string, k1: nat, p1: string, k2: nat, p2: string)
    requires k1 + 1 + |p1| <= k2 && k2 + 1 + |p2| <= |q|
    ensures Pieces(q, [Placeholder(k1, p1), Placeholder(k2, p2)])
            == [q[..k1], q[k1 + 1 + |p1|..k2], Substr(q, (k1 + 1 + |p1|) + (k2 + 1 + |p2|))]
  {
    OnePiece(q, k1, p1);
    PiecesOfTwo(q, Placeholder(k1, p1), Placeholder(k2, p2));
    SecondCut(q, q[..k1], k1 + 1 + |p1|, k2, p2);
  }

  lemma PiecesOfTwo(q: string, a: Placeholder, b: Placeholder)
    ensures Pieces(q, [a, b]) == Cut(Pieces(q, [a]), |q|, b)
  {
    assert [a, b][..1] == [a];
  }

  lemma OnePiece(q: string, k: nat, p: string)
    requires k + 1 + |p| <= |q|
    ensures Pieces(q, [Placeholder(k, p)]) == [q[..k], q[k + 1 + |p|..]]
  {
    var m := Placeholder(k, p);
    assert [m][..0] == [];
    assert Pieces(q, [m]) == Cut([q], |q|, m);
    assert [q][..0] == [];
    var left, right := SubstrLen(q, 0, -(|q| - k)), Substr(q, k + 1 + |p|);
    assert Cut([q], |q|, m) == [left, right];
    assert left == q[..k];
  }

  lemma SecondCut(q: string, a: string, e1: nat, k: nat, p: string)
    requires e1 <= k && k + 1 + |p| <= |q|
    ensures Cut([a, q[e1..]], |q|, Placeholder(k, p)) == [a, q[e1..k], Substr(q, e1 + (k + 1 + |p|))]
  {
    var rest := q[e1..];
    assert [a, rest][..1] == [a];
    assert SubstrLen(rest, 0, -(|q| - k)) == q[e1..k];
    assert Substr(rest, k + 1 + |p|) == Substr(q, e1 + (k + 1 + |p|)) by {
      if k + 1 + |p| <= |rest| {
        assert rest[k + 1 + |p|..] == q[e1 + (k + 1 + |p|)..];
      }
    }
  }

  /** So ":a,:b,c" becomes "?,?": the trailing ",c" is lost. */
  lemma SecondMarkerLosesTail()
    ensures Rewrite(":a,:b,c", [], [Placeholder(0, "a"), Placeholder(3, "b")]).value.sql == "?,?"
  {
    TwoNamedMarkers(":a,:b,c", 0, "a", 3, "b");
    assert Substr(":a,:b,c", 7) == "";
  }

  /** When the second marker ends the query nothing is lost, as in
      `a = :a AND b = :a`, which comes out with two `?`. */
  lemma SecondMarkerAtEnd(q: string, k1: nat, p1: string, k2: nat, p2: string)
    requires k1 + 1 + |p1| <= k2 && k2 + 1 + |p2| == |q|
    ensures Rewrite(q, [], [Placeholder(k1, p1), Placeholder(k2, p2)]).value.sql
            == q[..k1] + "?" + q[k1 + 1 + |p1|..k2] + "?"
  {
    TwoNamedMarkers(q, k1, p1, k2, p2);
    assert Substr(q, (k1 + 1 + |p1|) + (k2 + 1 + |p2|)) == "";
  }

  /** A name used twice maps to slot 1, the index of its second occurrence,
      and the map holds one slot for the two markers. */
  lemma RepeatedNameKeepsLastSlot(first: nat, second: nat, x: string)
    ensures NamedMap([Placeholder(first, x), Placeholder(second, x)]) == map[Name(x) := 1]
  {
    var named := [Placeholder(first, x), Placeholder(second, x)];
    assert named[..1] == [Placeholder(first, x)];
    assert named[..1][..0] == [];
    assert NamedMap(named[..1]) == map[Name(x) := 0];
  }

  /** A name used twice: `a=:p,b=:p` becomes `a=?,b=?` and paramMap holds the
      single entry p -> 1. */
  lemma RepeatedNameExample()
    ensures Rewrite("a=:p,b=:p", [], [Placeholder(2, "p"), Placeholder(7, "p")]).Ok?
    ensures Rewrite("a=:p,b=:p", [], [Placeholder(2, "p"), Placeholder(7, "p")]).value.sql == "a=?,b=?"
    ensures Rewrite("a=:p,b=:p", [], [Placeholder(2, "p"), Placeholder(7, "p")]).value.paramMap == map[Name("p") := 1]
  {
    var q := "a=:p,b=:p";
    SecondMarkerAtEnd(q, 2, "p", 7, "p");
    assert q[..2] == "a=";
    assert q[4..7] == ",b=";
    assert "a=" + "?" + ",b=" + "?" == "a=?,b=?";
    RepeatedNameKeepsLastSlot(2, 7, "p");
  }

}
