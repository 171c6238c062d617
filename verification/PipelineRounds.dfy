/** Link, then breakup, then relink. */
module PipelineRounds {
  import opened Basics
  import opened PipelineLinks
  import opened PipelineChain
  import opened PipelineRelink
  import opened PipelineBreakup

  /** Nothing is left over from an earlier round except what elements may still point to. */
  ghost predicate Clean(p: Pipe) {
    && Registered(p) && p.bufs == []
    && (forall j | 0 <= j < |p.items| :: !p.items[j].kept)
    && (forall e | e in p.output :: p.output[e] < p.next)
  }

  // ---- Link --------------------------------------------------------------

  /** The marks after the first `i` elements of the chain. */
  ghost predicate Marked(items: seq<Item>, els: seq<El>, i: nat)
    requires i <= |els|
  {
    forall j | 0 <= j < |items| ::
      (items[j].kept <==> items[j].el in els[..i]) && (items[j].el in els[..i] ==> items[j].linked)
  }

  /** The buffers were made for the first elements of the chain, in order. */
  ghost predicate Made(p: Pipe, els: seq<El>, us: seq<Rb>) {
    && |p.bufs| == |us| <= |els|
    && (forall r | 0 <= r < |us| :: p.bufs[r] == Buf(us[r], els[r], true, true) && us[r] < p.next)
    && (forall e | e in p.output :: p.output[e] < p.next)
    && (forall e, r | e in p.output && 0 <= r < |us| && p.output[e] == us[r] :: e == els[r])
  }

  ghost predicate LinkedSoFar(p: Pipe, tags: seq<string>, els: seq<El>, us: seq<Rb>) {
    && Registered(p) && Names(p.items, tags, els)
    && Made(p, els, us)
    && Marked(p.items, els, |us|)
    && Chained(p.input, p.output, els, us) && Distinct(us)
    && (forall t | 0 <= t < |us| :: Empty(p, us[t]))
  }

  lemma MarkGrows(items: seq<Item>, els: seq<El>, i: nat, j: nat)
    requires i < |els| && j < |items| && items[j].el == els[i] && Marked(items, els, i)
    requires forall k, l | 0 <= k < l < |items| :: items[k].el != items[l].el
    ensures Marked(items[j := items[j].(linked := true, kept := true)], els, i + 1)
  {
    assert els[..i + 1] == els[..i] + [els[i]];
  }

  lemma LinkStepMaps(p: Pipe, j: nat, us: seq<Rb>)
    requires j < |p.items|
    ensures var q := LinkStep(p, j, false, LastOf(us));
            && q.items == p.items[j := p.items[j].(linked := true, kept := true)]
            && q.bufs == p.bufs + [Buf(p.next, p.items[j].el, true, true)] && q.next == p.next + 1
            && q.output == p.output[p.items[j].el := p.next] && q.input == Joined(p.input, p.items[j].el, us)
            && q.data == p.data[p.next := []]
    ensures var q := LinkStep(p, j, true, LastOf(us));
            && q.items == p.items[j := p.items[j].(linked := true, kept := true)]
            && q.bufs == p.bufs && q.next == p.next
            && q.output == p.output && q.input == Joined(p.input, p.items[j].el, us) && q.data == p.data
  {
  }

  lemma MadeGrows(p: Pipe, q: Pipe, els: seq<El>, us: seq<Rb>)
    requires Made(p, els, us) && |us| < |els| && Distinct(els)
    requires q.bufs == p.bufs + [Buf(p.next, els[|us|], true, true)] && q.next == p.next + 1
    requires q.output == p.output[els[|us|] := p.next]
    ensures Made(q, els, us + [p.next])
  {
    var vs := us + [p.next];
    forall e, r | e in q.output && 0 <= r < |vs| && q.output[e] == vs[r] ensures e == els[r] {
      assert r < |us| ==> vs[r] == us[r] && us[r] < p.next;
    }
  }

  lemma LinkStepGrows(p: Pipe, tags: seq<string>, els: seq<El>, us: seq<Rb>, j: nat)
    requires LinkedSoFar(p, tags, els, us) && |us| < |els|
    requires j == FirstTag(p.items, tags[|us|], 0).value
    ensures LinkedSoFar(LinkStep(p, j, false, LastOf(us)), tags, els, us + [p.next])
  {
    var q := LinkStep(p, j, false, LastOf(us));
    LinkStepMaps(p, j, us);
    SameNames(p.items, j, p.items[j].(linked := true, kept := true), tags, els);
    MarkGrows(p.items, els, |us|, j);
    MadeGrows(p, q, els, us);
    DistinctGrows(us, p.next);
    ChainGrows(p.input, p.output, els, us, p.next);
    EmptyGrows(p, q, us);
    RegisteredStays(p, q, j);
  }

  lemma DistinctGrows(us: seq<Rb>, next: Rb)
    requires Distinct(us) && forall t | 0 <= t < |us| :: us[t] < next
    ensures Distinct(us + [next])
  {
  }

  lemma RegisteredStays(p: Pipe, q: Pipe, j: nat)
    requires Registered(p) && j < |p.items| && q.items == p.items[j := p.items[j].(linked := true, kept := true)]
    ensures Registered(q)
  {
  }

  lemma EmptyGrows(p: Pipe, q: Pipe, us: seq<Rb>)
    requires (forall t | 0 <= t < |us| :: Empty(p, us[t])) && q.data == p.data[p.next := []]
    ensures forall t | 0 <= t < |us + [p.next]| :: Empty(q, (us + [p.next])[t])
  {
  }

  /** A linked pipeline: the chain is wired, by empty buffers each made for its writer. */
  ghost predicate Complete(q: Pipe, els: seq<El>, us: seq<Rb>) {
    && q.linked && Wired(q, els, us) && FreshlyLinked(q, els) && Ids(q.bufs) == us
    && (forall t | 0 <= t < |us| :: Empty(q, us[t]))
    && (forall e | e in q.output :: q.output[e] < q.next)
    && (forall j | 0 <= j < |q.items| && q.items[j].kept :: q.items[j].linked)
  }

  lemma LinkLast(p: Pipe, tags: seq<string>, els: seq<El>, us: seq<Rb>, j: nat)
    requires LinkedSoFar(p, tags, els, us) && |us| + 1 == |els|
    requires j == FirstTag(p.items, tags[|us|], 0).value
    ensures var q := LinkStep(p, j, true, LastOf(us)).(linked := true);
            Complete(q, els, us)
  {
    var q := LinkStep(p, j, true, LastOf(us)).(linked := true);
    LinkStepMaps(p, j, us);
    ChainEnds(p, els, us);
    MarkGrows(p.items, els, |us|, j);
    assert els[..|els|] == els;
    assert Made(q, els, us);
    ChainedHosts(q, els, us);
    assert Registered(q);
  }

  lemma ChainedHosts(q: Pipe, els: seq<El>, us: seq<Rb>)
    requires Made(q, els, us) && |us| + 1 == |els| && Distinct(els) && Distinct(us)
    requires forall t | 0 <= t < |us| :: Lookup(q.output, els[t]) == Some(us[t])
    requires Registered(q) && Marked(q.items, els, |els|)
    ensures FreshlyLinked(q, els)
  {
    assert els[..|els|] == els;
  }

  /** Linking distinct elements succeeds, wires the chain, and gives each but the last a buffer of
      its own. */
  lemma {:induction false} LinkWires(p: Pipe, tags: seq<string>, els: seq<El>, us: seq<Rb>) returns (vs: seq<Rb>)
    requires LinkedSoFar(p, tags, els, us) && |us| < |els|
    ensures var (q, ok) := LinkFrom(p, tags, |us|, LastOf(us));
            ok && Complete(q, els, vs)
    decreases |els| - |us|
  {
    var j := FirstTag(p.items, tags[|us|], 0).value;
    if |us| + 1 == |els| {
      LinkFromLast(p, tags, LastOf(us), j);
      LinkLast(p, tags, els, us, j);
      vs := us;
    } else {
      LinkFromNext(p, tags, |us|, LastOf(us), j);
      LinkStepGrows(p, tags, els, us, j);
      vs := LinkWires(LinkStep(p, j, false, LastOf(us)), tags, els, us + [p.next]);
    }
  }

  lemma LinkFromLast(p: Pipe, tags: seq<string>, rb: Option<Rb>, j: nat)
    requires tags != [] && FirstTag(p.items, tags[|tags| - 1], 0) == Some(j)
    ensures LinkFrom(p, tags, |tags| - 1, rb) == (LinkStep(p, j, true, rb).(linked := true), true)
  {
    var p1 := LinkStep(p, j, true, rb);
    assert LinkFrom(p1, tags, |tags|, rb) == (p1.(linked := true), true);
  }

  lemma LinkFromNext(p: Pipe, tags: seq<string>, i: nat, rb: Option<Rb>, j: nat)
    requires i + 1 < |tags| && FirstTag(p.items, tags[i], 0) == Some(j)
    ensures LinkFrom(p, tags, i, rb) == LinkFrom(LinkStep(p, j, false, rb), tags, i + 1, Some(p.next))
  {
  }

  lemma LinkFreshly(p: Pipe, tags: seq<string>, els: seq<El>) returns (us: seq<Rb>)
    requires Clean(Unlink(p)) && Names(Unlink(p).items, tags, els) && |els| >= 1
    ensures var (q, ok) := Link(p, tags);
            ok && Complete(q, els, us)
  {
    var c := Unlink(p);
    assert els[..0] == [];
    assert LinkedSoFar(c, tags, els, []);
    us := LinkWires(c, tags, els, []);
  }

  // ---- The round ---------------------------------------------------------

  /** Contents written by running elements do not touch the links. */
  lemma DataAside(p: Pipe, els: seq<El>, data: map<Rb, seq<byte>>)
    requires FreshlyLinked(p, els)
    ensures FreshlyLinked(p.(data := data), els)
  {
    var q := p.(data := data);
    assert Hosted(q) && Paired(q);
  }

  lemma SameShapeNames(p: Pipe, q: Pipe, tags: seq<string>, els: seq<El>)
    requires SameShape(p, q) && Names(p.items, tags, els)
    ensures Names(q.items, tags, els)
  {
    forall t | 0 <= t < |tags| ensures FirstTag(q.items, tags[t], 0) == FirstTag(p.items, tags[t], 0) {
      SameTags(p.items, q.items, tags[t], 0);
    }
  }

  lemma {:induction false} SameTags(a: seq<Item>, b: seq<Item>, tag: string, i: nat)
    requires |a| == |b| && forall j | 0 <= j < |a| :: a[j].tag == b[j].tag
    ensures FirstTag(a, tag, i) == FirstTag(b, tag, i)
    decreases |a| - i
  {
    if i < |a| {
      SameTags(a, b, tag, i + 1);
    }
  }

  /** The element is kept by `Breakup(p, kept)`: it is in the chain and not its last, and it was
      registered before all other such elements or is the one the caller named. */
  ghost predicate IsRetained(p: Pipe, e: El, kept: Option<El>) {
    IsHost(p, e) && exists j | 0 <= j < |p.items| :: p.items[j].el == e && Retained(p, j, kept)
  }

  lemma RetainedOwns(p: Pipe, els: seq<El>, kept: Option<El>, e: El)
    requires FreshlyLinked(p, els) && IsRetained(p, e, kept)
    ensures e in p.output && Own(Breakup(p, kept), e, p.output[e])
    ensures p.output[e] < p.next
    ensures p.output[e] in p.data ==>
      p.output[e] in Breakup(p, kept).data && Breakup(p, kept).data[p.output[e]] == p.data[p.output[e]]
  {
    var q := Breakup(p, kept);
    BreakupKeeps(p, els, kept);
    var j :| 0 <= j < |p.items| && p.items[j].el == e && Retained(p, j, kept);
    var r :| 0 <= r < |p.bufs| && p.bufs[r].host == e;
    SameHosts(p, q, e);
    SameBefore(p, q, j);
    assert q.items[j].kept;
    OwnIsHosted(q, j, r);
  }

  lemma OwnIsHosted(q: Pipe, j: nat, r: nat)
    requires Hosted(q) && Paired(q) && j < |q.items| && r < |q.bufs|
    requires q.items[j].kept && q.items[j].el == q.bufs[r].host
    ensures q.bufs[r].kept && Own(q, q.items[j].el, q.bufs[r].id)
  {
    var e := q.items[j].el;
    assert Fits(q.bufs[r], ByHost(e));
    assert FirstBuf(q.bufs, ByHost(e), 0) == Some(r);
    assert forall k | 0 <= k < |q.items| && q.items[k].el == e :: k == j;
  }

  lemma BreakupIsReady(p: Pipe, els: seq<El>, kept: Option<El>, tags2: seq<string>, els2: seq<El>)
    requires FreshlyLinked(p, els) && Names(p.items, tags2, els2)
    ensures var q := Breakup(p, kept);
            !q.linked && q.next == p.next && Numbered(q) && Names(q.items, tags2, els2) && HostsKept(q, els2)
  {
    BreakupKeeps(p, els, kept);
    SameShapeNames(p, Breakup(p, kept), tags2, els2);
  }

  /** After linking any chain of at least one distinct element, running it (which leaves the
      buffers with any contents), breaking it up with any element kept, and relinking any list of
      distinct registered elements: the relink succeeds, each consecutive pair shares one buffer,
      no two pairs share the same, each retained element that is not last writes to the same buffer
      as before, which holds what it held, and every other one writes to an empty buffer. The order
      of registration does not matter. */
  lemma LinkBreakupRelink(p: Pipe, tags: seq<string>, els: seq<El>, data: map<Rb, seq<byte>>,
                          kept: Option<El>, tags2: seq<string>, els2: seq<El>) returns (us: seq<Rb>)
    requires Clean(Unlink(p)) && Names(Unlink(p).items, tags, els) && |els| >= 1
    requires Names(Link(p, tags).0.items, tags2, els2) && |els2| >= 1
    ensures var p1 := Link(p, tags).0.(data := data);
            var (p3, ok) := Relink(Breakup(p1, kept), tags2);
            && Link(p, tags).1 && ok && Wired(p3, els2, us)
            && forall t | 0 <= t < |els2| - 1 && IsRetained(p1, els2[t], kept) ::
                 && Lookup(p1.output, els2[t]) == Some(us[t])
                 && (us[t] in data ==> us[t] in p3.data && p3.data[us[t]] == data[us[t]])
    ensures var p1 := Link(p, tags).0.(data := data);
            var p3 := Relink(Breakup(p1, kept), tags2).0;
            |us| + 1 == |els2| && forall t | 0 <= t < |us| && !IsRetained(p1, els2[t], kept) :: Empty(p3, us[t])
  {
    var _ := LinkFreshly(p, tags, els);
    var p1 := Link(p, tags).0.(data := data);
    DataAside(Link(p, tags).0, els, data);
    var p2 := Breakup(p1, kept);
    BreakupIsReady(p1, els, kept, tags2, els2);
    us := RelinkWires(p2, tags2, els2);
    forall t | 0 <= t < |els2| - 1 && IsRetained(p1, els2[t], kept)
      ensures Lookup(p1.output, els2[t]) == Some(us[t])
      ensures us[t] in data ==> us[t] in Relink(p2, tags2).0.data && Relink(p2, tags2).0.data[us[t]] == data[us[t]]
    {
      RetainedOwns(p1, els, kept, els2[t]);
    }
    OthersAreEmpty(p1, els, kept, p2, Relink(p2, tags2).0, tags2, els2, us);
  }

  lemma OthersAreEmpty(p: Pipe, els: seq<El>, kept: Option<El>, p2: Pipe, p3: Pipe, tags: seq<string>, els2: seq<El>, us: seq<Rb>)
    requires FreshlyLinked(p, els) && p2 == Breakup(p, kept) && SameData(p2, p3)
    requires Names(p2.items, tags, els2) && |us| < |els2|
    requires forall t | 0 <= t < |us| :: Origin(p2, p3, tags[t], els2[t], us[t])
    ensures forall t | 0 <= t < |us| && !IsRetained(p, els2[t], kept) :: Empty(p3, us[t])
  {
    forall t | 0 <= t < |us| && !IsRetained(p, els2[t], kept) ensures Empty(p3, us[t]) {
      OtherIsEmpty(p, els, kept, p2, p3, tags[t], els2[t], us[t]);
    }
  }

  /** An element that is not retained gets a buffer that breakup emptied, or a new one. */
  lemma OtherIsEmpty(p: Pipe, els: seq<El>, kept: Option<El>, p2: Pipe, p3: Pipe, tag: string, e: El, u: Rb)
    requires FreshlyLinked(p, els) && p2 == Breakup(p, kept) && SameData(p2, p3) && !IsRetained(p, e, kept)
    requires FirstTag(p2.items, tag, 0).Some? && p2.items[FirstTag(p2.items, tag, 0).value].el == e
    requires Origin(p2, p3, tag, e, u)
    ensures Empty(p3, u)
  {
    BreakupKeeps(p, els, kept);
    var j := FirstTag(p2.items, tag, 0).value;
    forall r | OldSpot(p2, tag, e, u, r) ensures Empty(p3, u) {
      KeptHostIsRetained(p, p2, kept, j, r);
    }
  }

  lemma KeptHostIsRetained(p: Pipe, p2: Pipe, kept: Option<El>, j: nat, r: nat)
    requires SameShape(p, p2) && DecidedUpTo(p2, |p2.items|, kept) && j < |p2.items| && r < |p2.bufs|
    ensures p2.items[j].kept && p2.bufs[r].host == p2.items[j].el ==> IsRetained(p, p2.items[j].el, kept)
  {
    var e := p2.items[j].el;
    if p2.items[j].kept && p2.bufs[r].host == e {
      assert IsHost(p2, e);
      SameHosts(p, p2, e);
      SameBefore(p, p2, j);
      assert Retained(p, j, kept);
    }
  }

  // ---- Unlinking ---------------------------------------------------------

  lemma {:induction false} UnlinkedItems(items: seq<Item>, i: nat)
    ensures var r := UnlinkFrom(items, i);
            |r| == |items| &&
            forall j | 0 <= j < |items| ::
              r[j] == if j >= i && items[j].linked then items[j].(linked := false, kept := false) else items[j]
    decreases |items| - i
  {
    if i < |items| {
      UnlinkedItems(if items[i].linked then items[i := items[i].(linked := false, kept := false)] else items, i + 1);
    }
  }

  /** Unlinking a linked chain leaves a pipeline that can be linked again: no buffer is listed, and
      no element is marked as kept. */
  lemma UnlinkIsClean(q: Pipe, els: seq<El>, us: seq<Rb>)
    requires Complete(q, els, us)
    ensures Clean(Unlink(q)) && !Unlink(q).linked
    ensures forall j | 0 <= j < |q.items| ::
      j < |Unlink(q).items| && Unlink(q).items[j] == q.items[j].(linked := false, kept := false)
  {
    UnlinkedItems(q.items, 0);
  }

  // ---- When linking fails ------------------------------------------------

  ghost predicate Known(items: seq<Item>, tag: string) {
    exists j | 0 <= j < |items| :: items[j].tag == tag
  }

  ghost predicate AllKnown(items: seq<Item>, tags: seq<string>, i: int) {
    forall t | i <= t < |tags| && 0 <= t :: Known(items, tags[t])
  }

  /** Same elements under the same tags. */
  ghost predicate SameRegister(a: seq<Item>, b: seq<Item>) {
    |a| == |b| && forall j | 0 <= j < |a| :: a[j].el == b[j].el && a[j].tag == b[j].tag
  }

  lemma SameKnown(a: seq<Item>, b: seq<Item>, tags: seq<string>, i: nat)
    requires SameRegister(a, b)
    ensures AllKnown(a, tags, i) <==> AllKnown(b, tags, i)
  {
    forall t | i <= t < |tags| ensures Known(a, tags[t]) <==> Known(b, tags[t]) {
      if j :| 0 <= j < |a| && a[j].tag == tags[t] {
        assert b[j].tag == tags[t];
      }
      if j :| 0 <= j < |b| && b[j].tag == tags[t] {
        assert a[j].tag == tags[t];
      }
    }
  }

  lemma KnownRest(items: seq<Item>, tags: seq<string>, i: nat)
    requires i < |tags|
    ensures AllKnown(items, tags, i) <==> FirstTag(items, tags[i], 0).Some? && AllKnown(items, tags, i + 1)
  {
    if FirstTag(items, tags[i], 0).Some? {
      assert items[FirstTag(items, tags[i], 0).value].tag == tags[i];
      assert Known(items, tags[i]);
    } else {
      assert !Known(items, tags[i]);
    }
  }

  lemma MarkRegister(items: seq<Item>, j: nat, it: Item)
    requires j < |items| && it.el == items[j].el && it.tag == items[j].tag
    ensures SameRegister(items, items[j := it])
  {
  }

  lemma LinkRegister(p: Pipe, j: nat, last: bool, rb: Option<Rb>)
    requires j < |p.items|
    ensures var q := LinkStep(p, j, last, rb); SameRegister(p.items, q.items) && q.linked == p.linked
  {
    MarkRegister(p.items, j, p.items[j].(linked := true, kept := true));
  }

  lemma RelinkRegister(p: Pipe, j: nat, last: bool, rb: Option<Rb>)
    requires j < |p.items|
    ensures var q := RelinkStep(p, j, last, rb).0; SameRegister(p.items, q.items) && q.linked == p.linked
  {
    MarkRegister(p.items, j, p.items[j].(linked := true));
  }

  lemma {:induction false} LinkFailsFrom(p: Pipe, tags: seq<string>, i: nat, rb: Option<Rb>)
    ensures var (q, ok) := LinkFrom(p, tags, i, rb);
            (ok <==> AllKnown(p.items, tags, i)) && q.linked == (p.linked || ok) && SameRegister(p.items, q.items)
    decreases |tags| - i
  {
    if i < |tags| {
      KnownRest(p.items, tags, i);
      var j := FirstTag(p.items, tags[i], 0);
      if j.Some? {
        var last := i == |tags| - 1;
        var p1 := LinkStep(p, j.value, last, rb);
        LinkFailsFrom(p1, tags, i + 1, if last then rb else Some(p.next));
        LinkRegister(p, j.value, last, rb);
        SameKnown(p.items, p1.items, tags, i + 1);
      }
    }
  }

  lemma {:induction false} RelinkFailsFrom(p: Pipe, tags: seq<string>, i: nat, rb: Option<Rb>)
    ensures var (q, ok) := RelinkFrom(p, tags, i, rb);
            (ok <==> AllKnown(p.items, tags, i)) && q.linked == p.linked && SameRegister(p.items, q.items)
    decreases |tags| - i
  {
    if i < |tags| {
      KnownRest(p.items, tags, i);
      var j := FirstTag(p.items, tags[i], 0);
      if j.Some? {
        var (p1, rb1) := RelinkStep(p, j.value, i == |tags| - 1, rb);
        RelinkFailsFrom(p1, tags, i + 1, rb1);
        RelinkRegister(p, j.value, i == |tags| - 1, rb);
        SameKnown(p.items, p1.items, tags, i + 1);
      }
    }
  }

  /** Linking succeeds, and leaves the pipeline linked, exactly when every tag is registered, */
  lemma LinkFailsExactly(p: Pipe, tags: seq<string>)
    ensures var (q, ok) := Link(p, tags);
            (ok <==> AllKnown(p.items, tags, 0)) && q.linked == ok && SameRegister(p.items, q.items)
  {
    UnlinkedItems(p.items, 0);
    assert SameRegister(p.items, Unlink(p).items);
    SameKnown(p.items, Unlink(p).items, tags, 0);
    LinkFailsFrom(Unlink(p), tags, 0, None);
  }

  /** and relinking exactly when moreover the pipeline is not linked, which it does not change; a
      linked one is left as it is. */
  lemma RelinkFailsExactly(p: Pipe, tags: seq<string>)
    ensures var (q, ok) := Relink(p, tags);
            && (ok <==> !p.linked && AllKnown(p.items, tags, 0))
            && q.linked == p.linked && SameRegister(p.items, q.items) && (p.linked ==> q == p)
  {
    RelinkFailsFrom(p, tags, 0, None);
  }
}
