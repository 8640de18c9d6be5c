/** Redfish collections: paging by $top and $skip (section 7.3 of DSP0266), the recursive
    merge of a patch, and the naming of new members. */
module RedfishModel {
  import opened Basics
  import Text

  // ------------------------------------------------------------------- paging

  /** A nextLink: the query of the following page. */
  datatype Link = Link(top: int, skip: int)

  /** What the server stores and sends for a collection: its members and a nextLink. */
  datatype Page<M> = Page(members: seq<M>, next: Option<Link>)

  /** Python's xs[k:]. */
  function From<M>(xs: seq<M>, k: int): seq<M>
  {
    if k >= |xs| then [] else if k >= 0 then xs[k..] else if |xs| + k <= 0 then xs else xs[|xs| + k..]
  }

  /** Python's xs[:k]. */
  function UpTo<M>(xs: seq<M>, k: int): seq<M>
  {
    if k >= |xs| then xs else if k >= 0 then xs[..k] else if |xs| + k <= 0 then [] else xs[..|xs| + k]
  }

  /** The server's answer to a query; a query value that is absent is None. */
  function Served<M>(stored: Page<M>, top: Option<int>, skip: Option<int>): Page<M>
  {
    var t := if top.Some? then top.value else |stored.members|;
    var s := if skip.Some? then skip.value else 0;
    var rest := From(stored.members, s);
    if t < |rest| then Page(UpTo(rest, t), Some(Link(t, s + t))) else stored.(members := rest)
  }

  const MAX_NEXT_LINKS := 10

  /** Members gathered by following nextLinks from a page, with the requests that are left. */
  function Followed<M>(stored: Page<M>, page: Page<M>, left: nat): seq<M>
    decreases left
  {
    if left == 0 || page.next == None then page.members
    else page.members + Followed(stored, Served(stored, Some(page.next.value.top), Some(page.next.value.skip)),
        left - 1)
  }

  function Min(a: nat, b: nat): nat
  {
    if a < b then a else b
  }

  /** A position, or the end when it is past it. */
  function Start<M>(ms: seq<M>, skip: nat): (s: nat)
    ensures s <= |ms|
  {
    Min(skip, |ms|)
  }

  lemma ServedPage<M>(stored: Page<M>, top: nat, skip: nat)
    requires stored.next == None
    ensures var start := Start(stored.members, skip);
            var end := start + Min(|stored.members| - start, top);
            Served(stored, Some(top), Some(skip))
            == Page(stored.members[start..end], if end < |stored.members| then Some(Link(top, end)) else None)
  {
    var ms, start := stored.members, Start(stored.members, skip);
    var rest := ms[start..];
    assert From(ms, skip) == rest;
    if top < |rest| {
      assert rest[..top] == ms[start..start + top];
    } else {
      assert rest == ms[start..|ms|];
    }
  }

  lemma Glue<M>(ms: seq<M>, a: nat, b: nat, c: nat)
    requires a <= b <= c <= |ms|
    ensures ms[a..b] + ms[b..c] == ms[a..c]
  {
  }

  /** How many members fit on a page and those after it. */
  function Reach(left: nat, top: nat): nat
  {
    if left == 0 then top else top + Reach(left - 1, top)
  }

  lemma {:induction false} ReachIs(left: nat, top: nat)
    ensures Reach(left, top) == (left + 1) * top
  {
    if left > 0 {
      ReachIs(left - 1, top);
      assert (left + 1) * top == left * top + top;
    }
  }

  /** From any starting point, following nextLinks returns the members in order, none lost or
      repeated, up to what fits on the pages still to be requested. */
  lemma {:induction false} PagesConcatenate<M>(stored: Page<M>, top: nat, skip: nat, left: nat)
    requires stored.next == None
    ensures var start := Start(stored.members, skip);
            Followed(stored, Served(stored, Some(top), Some(skip)), left)
            == stored.members[start..start + Min(|stored.members| - start, Reach(left, top))]
    decreases left
  {
    hide Served;
    var start := Start(stored.members, skip);
    ServedPage(stored, top, skip);
    if top < |stored.members| - start && left > 0 {
      PagesConcatenate(stored, top, start + top, left - 1);
      Glue(stored.members, start, start + top, start + Min(|stored.members| - start, Reach(left, top)));
    }
  }

  /** The client's loop against the server's slicing: the first 10 * top members from the
      requested position on, or all of them when there are fewer; without $top, all. */
  lemma ClientGetsFirst<M>(stored: Page<M>, top: Option<nat>, skip: Option<nat>)
    requires stored.next == None
    ensures Followed(stored, Served(stored, top, skip), MAX_NEXT_LINKS - 1)
         == var rest := stored.members[Start(stored.members, if skip.Some? then skip.value else 0)..];
            if top.Some? then rest[..Min(|rest|, MAX_NEXT_LINKS * top.value)] else rest
  {
    var ms, s := stored.members, if skip.Some? then skip.value else 0;
    var start := Start(ms, s);
    assert Served(stored, top, skip) == Served(stored, top, Some(s));
    match top
    case Some(t) =>
      PagesConcatenate(stored, t, s, MAX_NEXT_LINKS - 1);
      ReachIs(MAX_NEXT_LINKS - 1, t);
      var n := Min(|ms| - start, MAX_NEXT_LINKS * t);
      assert ms[start..start + n] == ms[start..][..n];
    case None =>
      assert From(ms, s) == ms[start..];
  }

  // -------------------------------------------------------------------- merging

  /** A JSON value: an object, or anything else. */
  datatype Json = Leaf(text: string) | Dict(m: map<string, Json>)

  /** The object d after p has been merged into it. */
  function Merge(d: Json, p: Json): (r: Json)
    requires d.Dict? && p.Dict?
    ensures r.Dict? && r.m.Keys == d.m.Keys + p.m.Keys
    decreases p
  {
    Dict(map k | k in d.m.Keys + p.m.Keys :: Merged(d, p, k))
  }

  function Merged(d: Json, p: Json, k: string): Json
    requires d.Dict? && p.Dict? && k in d.m.Keys + p.m.Keys
    decreases p, 0
  {
    if k !in p.m then d.m[k]
    else if k in d.m && d.m[k].Dict? && p.m[k].Dict? then Merge(d.m[k], p.m[k])
    else p.m[k]
  }

  /** The value at a path of property names. */
  function At(j: Json, path: seq<string>): Option<Json>
  {
    if path == [] then Some(j)
    else if j.Dict? && path[0] in j.m then At(j.m[path[0]], path[1..])
    else None
  }

  /** The path leaves the patch: an object on the way lacks the next property. */
  predicate Untouched(p: Json, path: seq<string>)
  {
    p.Dict? && path != [] && (path[0] in p.m ==> Untouched(p.m[path[0]], path[1..]))
  }

  /** What a patch gives a non-object value wins. */
  lemma {:induction false} PatchLeavesWin(d: Json, p: Json, path: seq<string>)
    requires d.Dict? && p.Dict? && At(p, path).Some? && At(p, path).value.Leaf?
    ensures At(Merge(d, p), path) == At(p, path)
    decreases path
  {
    var k := path[0];
    if k in d.m && d.m[k].Dict? && p.m[k].Dict? {
      PatchLeavesWin(d.m[k], p.m[k], path[1..]);
    }
  }

  /** What a patch does not mention stays as it was. */
  lemma {:induction false} UntouchedKept(d: Json, p: Json, path: seq<string>)
    requires d.Dict? && p.Dict? && Untouched(p, path)
    ensures At(Merge(d, p), path) == At(d, path)
    decreases path
  {
    var k := path[0];
    if k in p.m {
      if k in d.m && d.m[k].Dict? {
        UntouchedKept(d.m[k], p.m[k], path[1..]);
      } else {
        NotThere(p.m[k], path[1..]);
      }
    }
  }

  lemma {:induction false} NotThere(p: Json, path: seq<string>)
    requires Untouched(p, path)
    ensures At(p, path) == None
    decreases path
  {
    if path[0] in p.m {
      NotThere(p.m[path[0]], path[1..]);
    }
  }

  /** These are all the paths: one that is neither untouched nor at or below a value of the
      patch is an object of the patch. */
  lemma {:induction false} PathCases(p: Json, path: seq<string>)
    requires p.Dict?
    ensures Untouched(p, path)
            || (At(p, path).Some? && At(p, path).value.Dict?)
            || (exists i: nat :: i <= |path| && At(p, path[..i]).Some? && At(p, path[..i]).value.Leaf?)
    decreases path
  {
    if path != [] && path[0] in p.m {
      var q := p.m[path[0]];
      if q.Dict? {
        PathCases(q, path[1..]);
        if i: nat :| i <= |path[1..]| && At(q, path[1..][..i]).Some? && At(q, path[1..][..i]).value.Leaf? {
          assert path[..i + 1][1..] == path[1..][..i];
          assert At(p, path[..i + 1]) == At(q, path[1..][..i]);
        }
      } else {
        assert path[..1][1..] == [];
        assert At(p, path[..1]) == Some(q);
      }
    }
  }

  /** Merging the same patch again changes nothing. */
  lemma {:induction false} MergeIdempotent(d: Json, p: Json)
    requires d.Dict? && p.Dict?
    ensures Merge(Merge(d, p), p) == Merge(d, p)
    decreases p
  {
    var r := Merge(d, p);
    forall k | k in r.m
      ensures Merged(r, p, k) == r.m[k]
    {
      assert r.m[k] == Merged(d, p, k);
      if k in p.m && p.m[k].Dict? {
        if k in d.m && d.m[k].Dict? {
          MergeIdempotent(d.m[k], p.m[k]);
        } else {
          MergeSelf(p.m[k]);
        }
      }
    }
    assert Merge(r, p).m == r.m;
  }

  lemma {:induction false} MergeSelf(p: Json)
    requires p.Dict?
    ensures Merge(p, p) == p
    decreases p
  {
    forall k | k in p.m
      ensures Merged(p, p, k) == p.m[k]
    {
      if p.m[k].Dict? { MergeSelf(p.m[k]); }
    }
    assert Merge(p, p).m == p.m;
  }

  // -------------------------------------------------------- naming a new member

  /** The n-th name tried for a new member of the collection at path. */
  function Candidate(path: string, id: string, n: nat): string
    requires n >= 1
  {
    path + "/" + (if n == 1 then id else id + Text.Decimal(n))
  }

  lemma CandidatesDiffer(path: string, id: string, m: nat, n: nat)
    requires 1 <= m < n
    ensures Candidate(path, id, m) != Candidate(path, id, n)
  {
    var a, b := Candidate(path, id, m), Candidate(path, id, n);
    var head := path + "/" + id;
    assert b == head + Text.Decimal(n);
    if m == 1 {
      assert |a| < |b|;
    } else {
      assert a == head + Text.Decimal(m);
      if a == b {
        assert Text.Decimal(m) == a[|head|..] == b[|head|..] == Text.Decimal(n);
        Text.DecimalInjective(m, n);
      }
    }
  }

  /** The first n candidates. */
  function Tried(path: string, id: string, n: nat): (s: set<string>)
  {
    if n == 0 then {} else Tried(path, id, n - 1) + {Candidate(path, id, n)}
  }

  lemma {:induction false} TriedMembers(path: string, id: string, n: nat, c: string)
    ensures c in Tried(path, id, n) <==> exists i :: 1 <= i <= n && c == Candidate(path, id, i)
  {
    if n > 0 {
      TriedMembers(path, id, n - 1, c);
    }
  }

  lemma {:induction false} TriedCount(path: string, id: string, n: nat)
    ensures |Tried(path, id, n)| == n
  {
    if n > 0 {
      TriedCount(path, id, n - 1);
      var c := Candidate(path, id, n);
      TriedMembers(path, id, n - 1, c);
      if i :| 1 <= i <= n - 1 && c == Candidate(path, id, i) {
        CandidatesDiffer(path, id, i, n);
      }
    }
  }

  /** By pigeonhole: if the first n candidates are all taken, there are at least n members. */
  lemma TakenBound(path: string, id: string, n: nat, ids: seq<Option<string>>)
    requires forall i :: 1 <= i <= n ==> Some(Candidate(path, id, i)) in ids
    ensures n <= |ids|
  {
    TriedCount(path, id, n);
    forall c | c in Tried(path, id, n)
      ensures Some(c) in ids
    {
      TriedMembers(path, id, n, c);
    }
    Pigeonhole(Tried(path, id, n), ids);
  }

  lemma {:induction false} Pigeonhole(s: set<string>, ids: seq<Option<string>>)
    requires forall c :: c in s ==> Some(c) in ids
    ensures |s| <= |ids|
    decreases |ids|
  {
    if ids != [] {
      var n := |ids| - 1;
      var rest := if ids[n].Some? then s - {ids[n].value} else s;
      forall c | c in rest
        ensures Some(c) in ids[..n]
      {
        assert Some(c) in ids && Some(c) != ids[n] && ids == ids[..n] + [ids[n]];
      }
      Pigeonhole(rest, ids[..n]);
    } else {
      assert forall c :: c in s ==> Some(c) in ids;
      assert s == {};
    }
  }
}
