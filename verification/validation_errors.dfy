/**
 The validation-error adapter: a validation failure carries an ordered list of
 (path, message) entries, and the adapter folds them, left to right, into one
 map from field path to message. A later entry overwrites an earlier entry with
 the same path.
 */
module ValidationErrors {

  /** One entry of a validation failure's `inner` list. */
  datatype Issue = Issue(path: string, message: string)

  /** Field path to message, the shape the form displays inline. */
  type Errors = map<string, string>

  /** The paths occurring in `inner`. */
  function Paths(inner: seq<Issue>): set<string>
  {
    set i | 0 <= i < |inner| :: inner[i].path
  }

  /** No path occurs twice in `inner`. */
  predicate DistinctPaths(inner: seq<Issue>)
  {
    forall i, j :: 0 <= i < j < |inner| ==> inner[i].path != inner[j].path
  }

  /** `i` is the position of the last entry of `inner` with its path. */
  predicate IsLastOccurrence(inner: seq<Issue>, i: int)
  {
    && 0 <= i < |inner|
    && forall j :: i < j < |inner| ==> inner[j].path != inner[i].path
  }

  /** The paths of a concatenation are those of its parts. */
  lemma PathsAppend(a: seq<Issue>, b: seq<Issue>)
    ensures Paths(a + b) == Paths(a) + Paths(b)
  {
    forall p | p in Paths(a + b) ensures p in Paths(a) + Paths(b) {
      var k :| 0 <= k < |a + b| && (a + b)[k].path == p;
      if k >= |a| { assert b[k - |a|].path == p; }
    }
    forall p | p in Paths(a) + Paths(b) ensures p in Paths(a + b) {
      if p in Paths(a) {
        var k :| 0 <= k < |a| && a[k].path == p;
        assert (a + b)[k].path == p;
      } else {
        var k :| 0 <= k < |b| && b[k].path == p;
        assert (a + b)[|a| + k].path == p;
      }
    }
  }

  /** Concatenating lists with distinct paths and no shared path keeps paths distinct. */
  lemma DistinctAppend(a: seq<Issue>, b: seq<Issue>)
    requires DistinctPaths(a) && DistinctPaths(b) && Paths(a) !! Paths(b)
    ensures DistinctPaths(a + b)
  {
    forall i, j | 0 <= i < j < |a + b| ensures (a + b)[i].path != (a + b)[j].path {
      if j < |a| {
      } else if i >= |a| {
        assert (a + b)[i] == b[i - |a|] && (a + b)[j] == b[j - |a|];
      } else {
        assert (a + b)[i].path in Paths(a);
        assert (a + b)[j] == b[j - |a|];
        assert (a + b)[j].path in Paths(b);
      }
    }
  }

  /** The position of the last entry of `inner` whose path is `p`. */
  function LastIndex(inner: seq<Issue>, p: string): (i: nat)
    requires p in Paths(inner)
    ensures IsLastOccurrence(inner, i) && inner[i].path == p
  {
    var n := |inner| - 1;
    if inner[n].path == p then n
    else
      assert p in Paths(inner[..n]) by {
        var k :| 0 <= k < |inner| && inner[k].path == p;
        assert inner[..n][k].path == p;
      }
      LastIndex(inner[..n], p)
  }

  /** The `forEach` loop over `inner`: each entry in turn writes its message
      under its path into the accumulated map. */
  function Fold(acc: Errors, inner: seq<Issue>): (r: Errors)
    ensures r.Keys == acc.Keys + Paths(inner)
    decreases |inner|
  {
    if |inner| == 0 then acc
    else
      assert Paths(inner) == {inner[0].path} + Paths(inner[1..]) by {
        forall p | p in Paths(inner) ensures p in {inner[0].path} + Paths(inner[1..]) {
          var k :| 0 <= k < |inner| && inner[k].path == p;
          if k > 0 { assert inner[1..][k - 1].path == p; }
        }
        forall p | p in Paths(inner[1..]) ensures p in Paths(inner) {
          var k :| 0 <= k < |inner[1..]| && inner[1..][k].path == p;
          assert inner[k + 1].path == p;
        }
      }
      Fold(acc[inner[0].path := inner[0].message], inner[1..])
  }

  /** An entry of the map whose path `inner` never mentions keeps its value. */
  lemma {:induction false} FoldKeepsUntouched(acc: Errors, inner: seq<Issue>, p: string)
    requires p in acc
    requires forall k :: 0 <= k < |inner| ==> inner[k].path != p
    ensures Fold(acc, inner)[p] == acc[p]
    decreases |inner|
  {
    if |inner| > 0 {
      FoldKeepsUntouched(acc[inner[0].path := inner[0].message], inner[1..], p);
    }
  }

  /** The message at the last occurrence of a path is the one the fold keeps. */
  lemma {:induction false} FoldLastWins(acc: Errors, inner: seq<Issue>, i: int)
    requires IsLastOccurrence(inner, i)
    ensures Fold(acc, inner)[inner[i].path] == inner[i].message
    decreases |inner|
  {
    var acc' := acc[inner[0].path := inner[0].message];
    if i == 0 {
      FoldKeepsUntouched(acc', inner[1..], inner[0].path);
    } else {
      assert inner[1..][i - 1] == inner[i];
      FoldLastWins(acc', inner[1..], i - 1);
    }
  }

  /** Appending one entry to the list runs the fold one step further. */
  lemma {:induction false} FoldSnoc(acc: Errors, inner: seq<Issue>, e: Issue)
    ensures Fold(acc, inner + [e]) == Fold(acc, inner)[e.path := e.message]
    decreases |inner|
  {
    if |inner| == 0 {
      assert inner + [e] == [e];
      assert [e][1..] == [];
    } else {
      assert (inner + [e])[0] == inner[0];
      assert (inner + [e])[1..] == inner[1..] + [e];
      FoldSnoc(acc[inner[0].path := inner[0].message], inner[1..], e);
    }
  }

  /** getValidationErrors: fold the failure's entries into a fresh map. The
      result has exactly the paths of `inner` as keys, and under each path
      the message of the last entry with that path. */
  function GetValidationErrors(inner: seq<Issue>): (r: Errors)
    ensures r.Keys == Paths(inner)
    ensures forall p :: p in r ==> r[p] == inner[LastIndex(inner, p)].message
  {
    var r := Fold(map[], inner);
    forall p | p in r ensures r[p] == inner[LastIndex(inner, p)].message {
      FoldLastWins(map[], inner, LastIndex(inner, p));
    }
    r
  }

  /** No entries, no errors. */
  lemma EmptyHasNoErrors()
    ensures GetValidationErrors([]) == map[]
  {
  }

  /** Appending `(p, m)` updates the previous result at `p` to `m`; as a map
      update, every other path keeps its previous entry. */
  lemma AppendOverwrites(inner: seq<Issue>, p: string, m: string)
    ensures GetValidationErrors(inner + [Issue(p, m)]) == GetValidationErrors(inner)[p := m]
  {
    FoldSnoc(map[], inner, Issue(p, m));
  }

  /** Every entry of the result is an entry of the input list. */
  lemma ResultEntriesOccur(inner: seq<Issue>, p: string)
    requires p in GetValidationErrors(inner)
    ensures Issue(p, GetValidationErrors(inner)[p]) in inner
  {
  }

  /** When paths are distinct, every entry of the list survives into the result. */
  lemma DistinctEntriesSurvive(inner: seq<Issue>, p: string, m: string)
    requires DistinctPaths(inner)
    requires Issue(p, m) in inner
    ensures p in GetValidationErrors(inner) && GetValidationErrors(inner)[p] == m
  {
  }

  /** Reordering entries whose paths are pairwise distinct does not change the result. */
  lemma {:induction false} ReorderDistinctPaths(inner: seq<Issue>, inner': seq<Issue>)
    requires DistinctPaths(inner)
    requires multiset(inner) == multiset(inner')
    ensures GetValidationErrors(inner) == GetValidationErrors(inner')
  {
    var r, r' := GetValidationErrors(inner), GetValidationErrors(inner');
    forall p | p in r ensures p in r' && r'[p] == r[p] {
      ResultEntriesOccur(inner, p);
      assert Issue(p, r[p]) in multiset(inner');
      var k :| 0 <= k < |inner'| && inner'[k] == Issue(p, r[p]);
      assert p in Paths(inner');
      ResultEntriesOccur(inner', p);
      assert Issue(p, r'[p]) in multiset(inner);
      DistinctEntriesSurvive(inner, p, r'[p]);
    }
    forall p | p in r' ensures p in r {
      ResultEntriesOccur(inner', p);
      assert Issue(p, r'[p]) in multiset(inner);
      var k :| 0 <= k < |inner| && inner[k] == Issue(p, r'[p]);
      assert p in Paths(inner);
    }
  }
}
