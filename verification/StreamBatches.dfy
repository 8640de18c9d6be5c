/** Which collections go into which message of a stream. */
module StreamBatches {
  import opened Basics
  import opened StreamModel

  lemma ConcatNone<T>()
    ensures Concat<T>([]) == []
  {
  }

  /** What the successful collections returned, one by one. */
  function Successes<T>(outs: seq<Option<seq<T>>>): seq<seq<T>>
  {
    if outs == [] then []
    else
      var n := |outs| - 1;
      Successes(outs[..n]) + (match outs[n] case None => [] case Some(o) => [o])
  }

  /** How many collections make a batch. */
  function Width(size: int): (w: nat)
    ensures w >= 1
  {
    if size < 1 then 1 else size
  }

  /** The complete groups of w successive collections, each as one sequence. */
  function Groups<T>(xs: seq<seq<T>>, w: nat): seq<seq<T>>
    requires w >= 1
  {
    if xs == [] then []
    else
      var n: nat := |xs| - 1;
      Groups(xs[..n], w) + (if (n + 1) % w == 0 then [Concat(xs[n + 1 - Least(w, n + 1)..])] else [])
  }

  function Least(a: nat, b: nat): (m: nat)
    ensures m <= a && m <= b && (m == a || m == b)
  {
    if a < b then a else b
  }

  function NonEmpties<T>(xs: seq<seq<T>>): seq<seq<T>>
  {
    if xs == [] then []
    else var n := |xs| - 1; NonEmpties(xs[..n]) + (if xs[n] == [] then [] else [xs[n]])
  }

  function PayloadList<T>(sent: seq<Sent<T>>): (ps: seq<seq<T>>)
    ensures |ps| == |sent| && forall i :: 0 <= i < |ps| ==> ps[i] == sent[i].payload
  {
    if sent == [] then [] else PayloadList(sent[..|sent| - 1]) + [sent[|sent| - 1].payload]
  }

  /** Counting on by one: quotient and remainder. */
  lemma CountNext(n: nat, w: nat)
    requires w >= 1
    ensures (n + 1) % w == (if n % w + 1 == w then 0 else n % w + 1)
    ensures (n + 1) / w == n / w + (if n % w + 1 == w then 1 else 0)
    ensures n % w <= n
  {
    var q, r := n / w, n % w;
    assert n == q * w + r;
    assert q * w >= 0;
    if r + 1 == w {
      assert (q + 1) * w == q * w + w;
      ModIs(n + 1, q + 1, w, 0);
    } else {
      ModIs(n + 1, q, w, r + 1);
    }
  }

  lemma Apart(a: nat, b: nat, w: nat)
    requires a < b
    ensures a * w + w <= b * w
  {
    assert (b - a - 1) * w >= 0;
    assert b * w == a * w + w + (b - a - 1) * w;
  }

  lemma ModIs(n: nat, q: nat, w: nat, r: nat)
    requires w >= 1 && r < w && n == q * w + r
    ensures n % w == r && n / w == q
  {
    var q', r' := n / w, n % w;
    assert n == q' * w + r';
    if q < q' {
      Apart(q, q', w);
    } else if q' < q {
      Apart(q', q, w);
    }
  }

  /** What waits: the collections after the last complete group. */
  function Rest<T>(xs: seq<seq<T>>, w: nat): seq<seq<T>>
    requires w >= 1
  {
    CountNext(|xs|, w);
    xs[|xs| - |xs| % w..]
  }

  lemma RestNext<T>(xs: seq<seq<T>>, x: seq<T>, w: nat)
    requires w >= 1
    ensures |Rest(xs, w)| == |xs| % w
    ensures if |xs| % w + 1 == w
            then Rest(xs + [x], w) == [] && Groups(xs + [x], w) == Groups(xs, w) + [Concat(Rest(xs, w) + [x])]
            else Rest(xs + [x], w) == Rest(xs, w) + [x] && Groups(xs + [x], w) == Groups(xs, w)
  {
    var n := |xs|;
    CountNext(n, w);
    CountNext(n + 1, w);
    assert (xs + [x])[..n] == xs;
    if n % w + 1 == w {
      assert (xs + [x])[n + 1 - w..] == xs[n - n % w..] + [x];
    } else {
      assert (xs + [x])[n - n % w..] == xs[n - n % w..] + [x];
    }
  }

  /** However the ticks go: each complete group of collections that is not empty has been sent as
      one message, in order, and the collections after the last complete group wait. */
  lemma {:induction false} BatchesAreGroups<T>(size: int, outs: seq<Option<seq<T>>>)
    ensures var b, xs, w := TickedAll(size, outs), Successes(outs), Width(size);
            && PayloadList(b.sent) == NonEmpties(Groups(xs, w))
            && b.outBuf == Concat(Rest(xs, w)) && b.collected == |xs| % w
  {
    var w := Width(size);
    if outs == [] {
      ConcatNone<T>();
      CountNext(0, w);
    } else {
      var n := |outs| - 1;
      BatchesAreGroups(size, outs[..n]);
      var b, xs := TickedAll(size, outs[..n]), Successes(outs[..n]);
      if outs[n].Some? {
        RestNext(xs, outs[n].value, w);
        ConcatAppend(Rest(xs, w), outs[n].value);
        TickGroups(b, size, outs[n].value, xs);
      } else {
        assert Successes(outs) == xs;
      }
    }
  }

  lemma TickGroups<T>(b: Batch<T>, size: int, out: seq<T>, xs: seq<seq<T>>)
    requires b.outBuf == Concat(Rest(xs, Width(size))) && b.collected == |xs| % Width(size)
    requires PayloadList(b.sent) == NonEmpties(Groups(xs, Width(size)))
    ensures var t, w := Ticked(b, size, Some(out)), Width(size);
            && PayloadList(t.sent) == NonEmpties(Groups(xs + [out], w))
            && t.outBuf == Concat(Rest(xs + [out], w)) && t.collected == |xs + [out]| % w
  {
    var w := Width(size);
    hide Ticked;
    hide Concat;
    hide Rest;
    hide Groups;
    hide NonEmpties;
    hide PayloadList;
    CountNext(|xs|, w);
    RestNext(xs, out, w);
    TickSends(b, size, out);
    ConcatAppend(Rest(xs, w), out);
    ConcatNone<T>();
    NonEmptiesNext(Groups(xs, w), Concat(Rest(xs, w) + [out]));
  }

  /** The collection that completes a batch sends what is buffered, unless that is nothing. */
  lemma TickSends<T>(b: Batch<T>, size: int, out: seq<T>)
    requires b.collected < Width(size)
    ensures var t, buf := Ticked(b, size, Some(out)), b.outBuf + out;
            if b.collected + 1 == Width(size)
            then t.collected == 0 && t.outBuf == []
                 && PayloadList(t.sent) == PayloadList(b.sent) + (if buf == [] then [] else [buf])
            else t == b.(outBuf := buf, collected := b.collected + 1)
  {
    PayloadsNext(b.sent, Sent(b.next, b.outBuf + out));
    hide PayloadList;
  }

  lemma NonEmptiesNext<T>(g: seq<seq<T>>, x: seq<T>)
    ensures NonEmpties(g + [x]) == NonEmpties(g) + (if x == [] then [] else [x])
  {
  }

  lemma PayloadsNext<T>(sent: seq<Sent<T>>, m: Sent<T>)
    ensures PayloadList(sent + [m]) == PayloadList(sent) + [m.payload]
  {
  }

  /** The i-th group is the i-th run of w collections, which begins after i * w of them. */
  lemma {:induction false} GroupsAt<T>(xs: seq<seq<T>>, w: nat, i: nat, at: nat)
    requires w >= 1 && at == i * w && at + w <= |xs|
    ensures i < |Groups(xs, w)| && Groups(xs, w)[i] == Concat(xs[at..at + w])
    decreases |xs|
  {
    var n: nat := |xs| - 1;
    if at + w <= n {
      GroupsAt(xs[..n], w, i, at);
      assert xs[..n][at..at + w] == xs[at..at + w];
      hide Concat;
    } else {
      GroupsCount(xs[..n], w);
      LastRun(n, w, i, at);
      assert xs[n + 1 - Least(w, n + 1)..] == xs[at..at + w];
      hide Concat;
    }
  }

  lemma LastRun(n: nat, w: nat, i: nat, at: nat)
    requires w >= 1 && at == i * w && n + 1 == at + w
    ensures (n + 1) % w == 0 && n / w == i
  {
    assert (i + 1) * w == i * w + w;
    ModIs(n + 1, i + 1, w, 0);
    ModIs(n, i, w, w - 1);
  }

  lemma {:induction false} GroupsCount<T>(xs: seq<seq<T>>, w: nat)
    requires w >= 1
    ensures |Groups(xs, w)| == |xs| / w
  {
    hide Concat;
    if xs == [] {
      ModIs(0, 0, w, 0);
    } else {
      var n: nat := |xs| - 1;
      GroupsCount(xs[..n], w);
      CountNext(n, w);
      CountAgain(n, w);
    }
  }

  lemma CountAgain(n: nat, w: nat)
    requires w >= 1
    ensures (n + 1) % w == 0 <==> n % w + 1 == w
  {
    CountNext(n, w);
  }

  lemma {:induction false} AllNonEmpty<T>(g: seq<seq<T>>)
    requires forall i :: 0 <= i < |g| ==> g[i] != []
    ensures NonEmpties(g) == g
  {
    if g != [] {
      var n := |g| - 1;
      AllNonEmpty(g[..n]);
      assert g == g[..n] + [g[n]];
    }
  }

  lemma ConcatNonEmpty<T>(xss: seq<seq<T>>)
    requires xss != [] && xss[|xss| - 1] != []
    ensures Concat(xss) != []
  {
  }

  /** With a positive batch size and collections that return something: after n successful
      collections n / size messages have been sent, and the last n % size collections wait. */
  lemma BatchesOfSize<T>(size: nat, outs: seq<Option<seq<T>>>)
    requires size >= 1 && forall x :: x in Successes(outs) ==> x != []
    ensures var b, xs := TickedAll(size, outs), Successes(outs);
            && PayloadList(b.sent) == Groups(xs, size)
            && |b.sent| == |xs| / size
            && |xs| % size <= |xs| && b.outBuf == Concat(xs[|xs| - |xs| % size..])
  {
    var xs := Successes(outs);
    BatchesAreGroups(size, outs);
    GroupsCount(xs, size);
    CountNext(|xs|, size);
    GroupsNonEmpty(xs, size);
    AllNonEmpty(Groups(xs, size));
    hide Groups;
    hide Concat;
    hide NonEmpties;
  }

  /** Each of them is exactly size successive collections, and they are numbered from 0. */
  lemma MessageIsRun<T>(size: nat, outs: seq<Option<seq<T>>>, i: nat)
    requires size >= 1 && forall x :: x in Successes(outs) ==> x != []
    requires i < |Successes(outs)| / size
    ensures var b, xs := TickedAll(size, outs), Successes(outs);
            && i < |b.sent| && i * size + size <= |xs|
            && b.sent[i] == Sent(i, Concat(xs[i * size..i * size + size]))
  {
    var xs := Successes(outs);
    BatchesOfSize(size, outs);
    BatchesConserve(size, outs);
    GroupBounds(|xs|, size, i);
    GroupsAt(xs, size, i, i * size);
    hide Groups;
    hide Concat;
    hide TickedAll;
  }

  lemma {:induction false} GroupsNonEmpty<T>(xs: seq<seq<T>>, w: nat)
    requires w >= 1 && forall x :: x in xs ==> x != []
    ensures forall i :: 0 <= i < |Groups(xs, w)| ==> Groups(xs, w)[i] != []
  {
    if xs != [] {
      var n: nat := |xs| - 1;
      assert forall x :: x in xs[..n] ==> x in xs;
      GroupsNonEmpty(xs[..n], w);
      LastNonEmpty(xs, n + 1 - Least(w, n + 1));
      hide Concat;
    }
  }

  lemma LastNonEmpty<T>(xs: seq<seq<T>>, i: nat)
    requires i < |xs| && forall x :: x in xs ==> x != []
    ensures Concat(xs[i..]) != []
  {
    assert xs[|xs| - 1] in xs;
    ConcatNonEmpty(xs[i..]);
  }

  lemma GroupBounds(n: nat, w: nat, i: nat)
    requires w >= 1 && i < n / w
    ensures 0 <= i * w && i * w + w <= n
  {
    var q, r := n / w, n % w;
    assert n == q * w + r;
    Apart(i, q, w);
  }
}
