/**
  The shape both kanban boards share: an ordered list of records, a filter
  that keeps some of them (`Array.prototype.filter`), one column per stage
  holding the filtered records whose status is that stage, and the
  `Array.prototype.map` that rewrites the records with a given id.
*/
module Board {

  /** `s.filter(p)`: the elements that satisfy p, in their original order. */
  function Select<T>(s: seq<T>, p: T -> bool): (r: seq<T>)
    ensures |r| <= |s|
    ensures forall i :: 0 <= i < |r| ==> r[i] in s && p(r[i])
    ensures forall i :: 0 <= i < |s| && p(s[i]) ==> s[i] in r
  {
    if s == [] then [] else (if p(s[0]) then [s[0]] else []) + Select(s[1..], p)
  }

  /** r is s with some elements left out, the rest kept in order. */
  ghost predicate IsSubsequence<T>(r: seq<T>, s: seq<T>)
    decreases |s|
  {
    if r == [] then true
    else if s == [] then false
    else (r[0] == s[0] && IsSubsequence(r[1..], s[1..])) || IsSubsequence(r, s[1..])
  }

  /** Filtering keeps the original order. */
  lemma {:induction false} SelectIsSubsequence<T>(s: seq<T>, p: T -> bool)
    ensures IsSubsequence(Select(s, p), s)
    decreases |s|
  {
    if s != [] {
      SelectIsSubsequence(s[1..], p);
      if p(s[0]) {
        assert Select(s, p)[1..] == Select(s[1..], p);
      } else {
        assert Select(s, p) == Select(s[1..], p);
      }
    }
  }

  /** Filtering keeps every copy of a kept element and no copy of a dropped one. */
  lemma {:induction false} SelectCounts<T>(s: seq<T>, p: T -> bool, x: T)
    ensures multiset(Select(s, p))[x] == if p(x) then multiset(s)[x] else 0
    decreases |s|
  {
    if s != [] {
      SelectCounts(s[1..], p, x);
      assert s == [s[0]] + s[1..];
    }
  }

  /** A filter that every element passes returns the list unchanged. */
  lemma {:induction false} SelectAll<T>(s: seq<T>, p: T -> bool)
    requires forall i :: 0 <= i < |s| ==> p(s[i])
    ensures Select(s, p) == s
    decreases |s|
  {
    if s != [] {
      SelectAll(s[1..], p);
    }
  }

  /** Filters that agree on every element give the same result. */
  lemma {:induction false} SelectSame<T>(s: seq<T>, p: T -> bool, q: T -> bool)
    requires forall x :: p(x) == q(x)
    ensures Select(s, p) == Select(s, q)
    decreases |s|
  {
    if s != [] {
      SelectSame(s[1..], p, q);
    }
  }

  /** Filtering by a disjoint "or" splits the result into the two filters' results. */
  lemma {:induction false} SelectSplit<T>(s: seq<T>, p: T -> bool, q: T -> bool, r: T -> bool)
    requires forall x :: r(x) == (p(x) || q(x))
    requires forall x :: !(p(x) && q(x))
    ensures multiset(Select(s, r)) == multiset(Select(s, p)) + multiset(Select(s, q))
    decreases |s|
  {
    if s != [] {
      SelectSplit(s[1..], p, q, r);
    }
  }

  /** The test a card passes to sit in the column of `stage`. */
  function AtStage<T>(status: T -> string, stage: string): T -> bool
  {
    x => status(x) == stage
  }

  /** The test a card passes to sit in some column of the board. */
  function InStages<T>(status: T -> string, stages: seq<string>): T -> bool
  {
    x => status(x) in stages
  }

  /** The column of one stage: `filtered.filter(x => x.status === stage)`. */
  function Column<T>(s: seq<T>, status: T -> string, stage: string): (r: seq<T>)
    ensures forall i :: 0 <= i < |r| ==> r[i] in s && status(r[i]) == stage
    ensures forall i :: 0 <= i < |s| && status(s[i]) == stage ==> s[i] in r
  {
    Select(s, AtStage(status, stage))
  }

  /** The cards of all columns, column after column in stage order. */
  function Columns<T>(s: seq<T>, status: T -> string, stages: seq<string>): seq<T>
    decreases |stages|
  {
    if stages == [] then [] else Column(s, status, stages[0]) + Columns(s, status, stages[1..])
  }

  /** No stage is listed twice. */
  predicate Distinct(stages: seq<string>)
  {
    forall i, j :: 0 <= i < j < |stages| ==> stages[i] != stages[j]
  }

  /**
    With distinct stages the columns partition the cards whose status is a
    stage: together they hold each such card exactly as often as the list
    does, and no other card.
  */
  lemma {:induction false} ColumnsPartition<T>(s: seq<T>, status: T -> string, stages: seq<string>)
    requires Distinct(stages)
    ensures multiset(Columns(s, status, stages)) == multiset(Select(s, InStages(status, stages)))
    decreases |stages|
  {
    if stages != [] {
      var rest := stages[1..];
      ColumnsPartition(s, status, rest);
      forall x ensures InStages(status, stages)(x) == (AtStage(status, stages[0])(x) || InStages(status, rest)(x)) {
        assert stages == [stages[0]] + rest;
      }
      forall x ensures !(AtStage(status, stages[0])(x) && InStages(status, rest)(x)) {
        if status(x) in rest {
          var k :| 0 <= k < |rest| && rest[k] == status(x);
          assert stages[k + 1] == rest[k];
        }
      }
      SelectSplit(s, AtStage(status, stages[0]), InStages(status, rest), InStages(status, stages));
    }
  }

  /** The column sizes add up to the number of cards whose status is one of the stages. */
  lemma ColumnSizesAddUp<T>(s: seq<T>, status: T -> string, stages: seq<string>)
    requires Distinct(stages)
    ensures |Columns(s, status, stages)| == |Select(s, InStages(status, stages))|
  {
    ColumnsPartition(s, status, stages);
    assert |multiset(Columns(s, status, stages))| == |Columns(s, status, stages)|;
  }

  /** A card whose status is one of the (distinct) stages shows in exactly one column. */
  lemma ExactlyOneColumn<T>(s: seq<T>, status: T -> string, stages: seq<string>, x: T)
    requires Distinct(stages)
    requires x in s && status(x) in stages
    ensures |set i | 0 <= i < |stages| && x in Column(s, status, stages[i])| == 1
  {
    var k :| 0 <= k < |stages| && stages[k] == status(x);
    assert (set i | 0 <= i < |stages| && x in Column(s, status, stages[i])) == {k};
  }

  /** The test a record passes to survive a delete of `id`. */
  function KeyIsNot<T>(key: T -> string, id: string): T -> bool
  {
    x => key(x) != id
  }

  /** `s.filter(x => x.id !== id)`: the delete of every record with that id. */
  function Remove<T>(s: seq<T>, key: T -> string, id: string): (r: seq<T>)
    ensures forall i :: 0 <= i < |r| ==> r[i] in s && key(r[i]) != id
    ensures forall i :: 0 <= i < |s| && key(s[i]) != id ==> s[i] in r
  {
    Select(s, KeyIsNot(key, id))
  }

  /** A delete keeps every other record exactly as often as before, in the same order. */
  lemma RemoveKeepsOthers<T>(s: seq<T>, key: T -> string, id: string, x: T)
    requires key(x) != id
    ensures multiset(Remove(s, key, id))[x] == multiset(s)[x]
    ensures IsSubsequence(Remove(s, key, id), s)
  {
    SelectCounts(s, KeyIsNot(key, id), x);
    SelectIsSubsequence(s, KeyIsNot(key, id));
  }

  /** Deleting an id no record carries leaves the list as it was. */
  lemma RemoveUnknownId<T>(s: seq<T>, key: T -> string, id: string)
    requires forall i :: 0 <= i < |s| ==> key(s[i]) != id
    ensures Remove(s, key, id) == s
  {
    SelectAll(s, KeyIsNot(key, id));
  }

  /** `s.map(x => hit(x) ? f(x) : x)`: the same list, with every hit replaced by its image. */
  function UpdateWhere<T>(s: seq<T>, hit: T -> bool, f: T -> T): (r: seq<T>)
    ensures |r| == |s|
    ensures forall i :: 0 <= i < |s| ==> r[i] == if hit(s[i]) then f(s[i]) else s[i]
  {
    seq(|s|, i requires 0 <= i < |s| => if hit(s[i]) then f(s[i]) else s[i])
  }

  /** With no hit the list is returned unchanged. */
  lemma UpdateWithoutHit<T>(s: seq<T>, hit: T -> bool, f: T -> T)
    requires forall i :: 0 <= i < |s| ==> !hit(s[i])
    ensures UpdateWhere(s, hit, f) == s
  {
  }

  /** Two updates of the same records compose into one update by the composed image. */
  lemma UpdateTwice<T>(s: seq<T>, hit: T -> bool, f: T -> T, g: T -> T, gf: T -> T)
    requires forall x :: hit(x) ==> hit(f(x))
    requires forall x :: gf(x) == g(f(x))
    ensures UpdateWhere(UpdateWhere(s, hit, f), hit, g) == UpdateWhere(s, hit, gf)
  {
  }
}
