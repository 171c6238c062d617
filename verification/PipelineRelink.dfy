/** Relinking a pipeline (components/audio_pipeline/audio_pipeline.c): who ends up sharing which
    ring buffer, from any state of the lists. */
module PipelineRelink {
  import opened Basics
  import opened PipelineLinks
  import opened PipelineChain
  import opened PipelineDeal

  // ---- What the buffers are dealt by -------------------------------------

  predicate KeptTag(items: seq<Item>, tag: string) {
    var j := FirstTag(items, tag, 0);
    j.Some? && items[j.value].kept
  }

  /** All that decides who gets which buffer. */
  ghost function DealOf(p: Pipe, tags: seq<string>, els: seq<El>): (d: Deal)
    requires |tags| == |els|
    ensures |d.kept| == |d.first| == |els|
  {
    Deal(set q: nat | q < |p.bufs| && Fits(p.bufs[q], Unused),
         seq(|tags|, t requires 0 <= t < |tags| => KeptTag(p.items, tags[t])),
         seq(|els|, t requires 0 <= t < |els| => FirstBuf(p.bufs, ByHost(els[t]), 0)))
  }

  lemma DealIsProper(p: Pipe, tags: seq<string>, els: seq<El>)
    requires |tags| == |els| && Distinct(els)
    ensures Proper(DealOf(p, tags, els))
  {
    var d := DealOf(p, tags, els);
    forall s, t | 0 <= s < t < |els| && d.first[s].Some?
      ensures d.first[s] != d.first[t]
    {
      assert p.bufs[d.first[s].value].host == els[s];
    }
  }

  // ---- The state after some steps ----------------------------------------

  /** The old buffers are in their places with their numbers, hosts and keep marks, and those that
      are unused are the ones the deal has left; new ones are in use and made for linked elements. */
  ghost predicate BufsFollow(p0: Pipe, p: Pipe, d: Deal, els: seq<El>, i: nat)
    requires i <= |els| == |d.kept| == |d.first|
  {
    && |p0.bufs| <= |p.bufs|
    && (forall q | 0 <= q < |p0.bufs| ::
          p.bufs[q].id == p0.bufs[q].id && p.bufs[q].host == p0.bufs[q].host && p.bufs[q].kept == p0.bufs[q].kept)
    && (forall q | 0 <= q < |p0.bufs| :: Fits(p.bufs[q], Unused) <==> q in Rest(d, i))
    && (forall q | |p0.bufs| <= q < |p.bufs| :: p.bufs[q].linked && p.bufs[q].host in els[..i])
  }

  /** The tags still name the same elements, with the same keep marks. */
  ghost predicate ItemsFollow(p: Pipe, d: Deal, tags: seq<string>, els: seq<El>)
    requires |els| == |d.kept|
  {
    Names(p.items, tags, els) && forall t | 0 <= t < |tags| :: KeptTag(p.items, tags[t]) == d.kept[t]
  }

  /** The buffers written to are the dealt ones, or new ones with rising numbers. */
  ghost predicate Dealt(p0: Pipe, next: Rb, d: Deal, us: seq<Rb>)
    requires |us| <= |d.kept| == |d.first|
  {
    && p0.next <= next
    && (forall t | 0 <= t < |us| && Spot(d, t).Some? ::
          Spot(d, t).value < |p0.bufs| && us[t] == p0.bufs[Spot(d, t).value].id)
    && (forall t | 0 <= t < |us| && Spot(d, t).None? :: p0.next <= us[t] < next)
    && (forall s, t | 0 <= s < t < |us| && Spot(d, s).None? && Spot(d, t).None? :: us[s] < us[t])
  }

  /** No buffer has lost anything, and new ones are empty. */
  ghost predicate SameData(p: Pipe, q: Pipe) {
    && p.next <= q.next
    && (forall id: Rb | id < p.next && id in p.data :: id in q.data && q.data[id] == p.data[id])
    && (forall id: Rb | p.next <= id < q.next :: Empty(q, id))
  }

  ghost predicate Tracks(p0: Pipe, p: Pipe, tags: seq<string>, els: seq<El>, us: seq<Rb>)
    requires |tags| == |els|
  {
    && |us| <= |els|
    && ItemsFollow(p, DealOf(p0, tags, els), tags, els)
    && BufsFollow(p0, p, DealOf(p0, tags, els), els, |us|)
    && Dealt(p0, p.next, DealOf(p0, tags, els), us)
    && Chained(p.input, p.output, els, us)
    && SameData(p0, p)
  }

  // ---- One step ----------------------------------------------------------

  lemma {:induction false} FirstHostStays(a: seq<Buf>, b: seq<Buf>, e: El)
    requires |a| <= |b| && forall r | 0 <= r < |a| :: a[r].host == b[r].host
    requires forall r | |a| <= r < |b| :: b[r].host != e
    ensures FirstBuf(b, ByHost(e), 0) == FirstBuf(a, ByHost(e), 0)
  {
    var r := FirstBuf(a, ByHost(e), 0);
    assert r.Some? ==> Fits(b[r.value], ByHost(e));
    forall q | 0 <= q < |b| && (r.None? || q < r.value) ensures !Fits(b[q], ByHost(e)) {
      assert q < |a| ==> !Fits(a[q], ByHost(e));
    }
  }

  /** Searching the list finds what was dealt. */
  lemma PickIsSpot(p0: Pipe, p: Pipe, d: Deal, tags: seq<string>, els: seq<El>, i: nat, j: nat)
    requires |tags| == |els| && d == DealOf(p0, tags, els) && i < |els|
    requires ItemsFollow(p, d, tags, els) && BufsFollow(p0, p, d, els, i)
    requires FirstTag(p.items, tags[i], 0) == Some(j)
    ensures Pick(p, j) == Spot(d, i)
  {
    assert p.items[j].kept == d.kept[i] && p.items[j].el == els[i];
    if d.kept[i] {
      assert els[i] !in els[..i];
      FirstHostStays(p0.bufs, p.bufs, els[i]);
    } else {
      var r := FirstBuf(p.bufs, Unused, 0);
      assert Rest(d, i) <= d.free;
      forall q | q in Rest(d, i) ensures q < |p0.bufs| && Fits(p.bufs[q], Unused) {
      }
      if r.Some? {
        assert r.value < |p0.bufs| && r.value in Rest(d, i);
        assert Least(Rest(d, i)) == r.value;
      } else {
        assert Rest(d, i) == {};
      }
    }
  }

  lemma StepItems(p: Pipe, d: Deal, tags: seq<string>, els: seq<El>, j: nat, last: bool, rb: Option<Rb>)
    requires |els| == |d.kept| && j < |p.items| && ItemsFollow(p, d, tags, els)
    ensures ItemsFollow(RelinkStep(p, j, last, rb).0, d, tags, els)
  {
    var it := p.items[j].(linked := true);
    assert RelinkStep(p, j, last, rb).0.items == p.items[j := it];
    SameNames(p.items, j, it, tags, els);
    forall t | 0 <= t < |tags| ensures KeptTag(p.items[j := it], tags[t]) == d.kept[t] {
      SameTag(p.items, j, it, tags[t], 0);
    }
  }

  /** What a step does to rb_list and the counter. */
  lemma StepBufs(p: Pipe, j: nat, rb: Option<Rb>)
    requires j < |p.items|
    ensures var q := RelinkStep(p, j, false, rb).0;
            var r := Pick(p, j);
            if r.Some? then q.bufs == p.bufs[r.value := p.bufs[r.value].(linked := true)] && q.next == p.next
            else q.bufs == p.bufs + [Buf(p.next, p.items[j].el, true, false)] && q.next == p.next + 1
    ensures RelinkStep(p, j, false, rb).1 ==
            Some(if Pick(p, j).Some? then p.bufs[Pick(p, j).value].id else p.next)
  {
  }

  lemma StepMaps(p: Pipe, j: nat, us: seq<Rb>)
    requires j < |p.items|
    ensures var (q, u) := RelinkStep(p, j, false, LastOf(us));
            u.Some? && q.output == p.output[p.items[j].el := u.value] && q.input == Joined(p.input, p.items[j].el, us)
    ensures var q := RelinkStep(p, j, true, LastOf(us)).0;
            q.output == p.output && q.input == Joined(p.input, p.items[j].el, us)
  {
  }

  lemma BufsGrow(p0: Pipe, p: Pipe, q: Pipe, d: Deal, els: seq<El>, i: nat)
    requires i < |els| == |d.kept| == |d.first| && BufsFollow(p0, p, d, els, i)
    requires Spot(d, i).Some? ==>
      && Spot(d, i).value < |p0.bufs|
      && q.bufs == p.bufs[Spot(d, i).value := p.bufs[Spot(d, i).value].(linked := true)]
    requires Spot(d, i).None? ==> exists id :: q.bufs == p.bufs + [Buf(id, els[i], true, false)]
    ensures BufsFollow(p0, q, d, els, i + 1)
  {
    RestShrinks(d, i);
    assert els[..i + 1] == els[..i] + [els[i]];
  }

  lemma SpotIsOld(p0: Pipe, tags: seq<string>, els: seq<El>, t: nat)
    requires |tags| == |els| && t < |els|
    ensures var d := DealOf(p0, tags, els);
            Spot(d, t).Some? ==> Spot(d, t).value < |p0.bufs|
  {
    var d := DealOf(p0, tags, els);
    assert Rest(d, t) <= d.free;
  }

  lemma StepKeepsData(p: Pipe, j: nat, last: bool, rb: Option<Rb>)
    requires j < |p.items|
    ensures SameData(p, RelinkStep(p, j, last, rb).0)
  {
  }

  lemma DealtGrows(p0: Pipe, next: Rb, d: Deal, us: seq<Rb>, u: Rb, next': Rb)
    requires |us| < |d.kept| == |d.first| && Dealt(p0, next, d, us)
    requires Spot(d, |us|).Some? ==>
      Spot(d, |us|).value < |p0.bufs| && u == p0.bufs[Spot(d, |us|).value].id && next' == next
    requires Spot(d, |us|).None? ==> u == next && next' == next + 1
    ensures Dealt(p0, next', d, us + [u])
  {
    var vs := us + [u];
    forall t | 0 <= t < |vs| && Spot(d, t).None? ensures p0.next <= vs[t] < next' {
    }
    forall s, t | 0 <= s < t < |vs| && Spot(d, s).None? && Spot(d, t).None? ensures vs[s] < vs[t] {
    }
  }

  /** One element that is not the last of the list. */
  lemma StepTracks(p0: Pipe, p: Pipe, tags: seq<string>, els: seq<El>, us: seq<Rb>, j: nat)
    requires |tags| == |els| && Tracks(p0, p, tags, els, us) && |us| + 1 < |els|
    requires FirstTag(p.items, tags[|us|], 0) == Some(j)
    ensures var (q, u) := RelinkStep(p, j, false, LastOf(us));
            u.Some? && Tracks(p0, q, tags, els, us + [u.value])
  {
    var d := DealOf(p0, tags, els);
    var (q, u) := RelinkStep(p, j, false, LastOf(us));
    StepItems(p, d, tags, els, j, false, LastOf(us));
    StepDeals(p0, p, tags, els, us, j);
    StepMaps(p, j, us);
    ChainGrows(p.input, p.output, els, us, u.value);
    StepKeepsData(p, j, false, LastOf(us));
    SameDataTrans(p0, p, q);
  }

  lemma SameDataTrans(p: Pipe, q: Pipe, s: Pipe)
    requires SameData(p, q) && SameData(q, s)
    ensures SameData(p, s)
  {
    forall id: Rb | p.next <= id < s.next ensures Empty(s, id) {
      assert id < q.next ==> Empty(q, id);
    }
  }

  lemma StepDeals(p0: Pipe, p: Pipe, tags: seq<string>, els: seq<El>, us: seq<Rb>, j: nat)
    requires |tags| == |els| && |us| < |els|
    requires ItemsFollow(p, DealOf(p0, tags, els), tags, els) && FirstTag(p.items, tags[|us|], 0) == Some(j)
    requires BufsFollow(p0, p, DealOf(p0, tags, els), els, |us|) && Dealt(p0, p.next, DealOf(p0, tags, els), us)
    ensures var (q, u) := RelinkStep(p, j, false, LastOf(us));
            && BufsFollow(p0, q, DealOf(p0, tags, els), els, |us| + 1)
            && u.Some? && Dealt(p0, q.next, DealOf(p0, tags, els), us + [u.value])
  {
    var d := DealOf(p0, tags, els);
    var (q, u) := RelinkStep(p, j, false, LastOf(us));
    PickIsSpot(p0, p, d, tags, els, |us|, j);
    SpotIsOld(p0, tags, els, |us|);
    StepBufs(p, j, LastOf(us));
    BufsGrow(p0, p, q, d, els, |us|);
    DealtGrows(p0, p.next, d, us, u.value, q.next);
  }

  // ---- The whole list ----------------------------------------------------

  /** A relink of distinct registered elements always succeeds, connects them by the dealt
      buffers, and takes nothing from any buffer. */
  lemma {:induction false} RelinkFollows(p0: Pipe, p: Pipe, tags: seq<string>, els: seq<El>, us: seq<Rb>)
    returns (vs: seq<Rb>)
    requires |tags| == |els| && Tracks(p0, p, tags, els, us) && |us| < |els|
    ensures var (q, ok) := RelinkFrom(p, tags, |us|, LastOf(us));
            ok && Connected(q, els, vs) && SameData(p0, q) && Dealt(p0, q.next, DealOf(p0, tags, els), vs)
    decreases |els| - |us|
  {
    var j := FirstTag(p.items, tags[|us|], 0).value;
    if |us| + 1 == |els| {
      LastTracks(p0, p, tags, els, us, j);
      vs := us;
    } else {
      StepTracks(p0, p, tags, els, us, j);
      var (q, u) := RelinkStep(p, j, false, LastOf(us));
      assert LastOf(us + [u.value]) == u;
      assert RelinkFrom(p, tags, |us|, LastOf(us)) == RelinkFrom(q, tags, |us| + 1, u);
      vs := RelinkFollows(p0, q, tags, els, us + [u.value]);
    }
  }

  /** The last element only reads. */
  lemma LastTracks(p0: Pipe, p: Pipe, tags: seq<string>, els: seq<El>, us: seq<Rb>, j: nat)
    requires |tags| == |els| && Tracks(p0, p, tags, els, us) && |us| + 1 == |els|
    requires FirstTag(p.items, tags[|us|], 0) == Some(j)
    ensures var (q, ok) := RelinkFrom(p, tags, |us|, LastOf(us));
            ok && Connected(q, els, us) && SameData(p0, q) && Dealt(p0, q.next, DealOf(p0, tags, els), us)
  {
    var q := RelinkStep(p, j, true, LastOf(us)).0;
    assert RelinkFrom(p, tags, |us|, LastOf(us)) == (q, true);
    StepMaps(p, j, us);
    ChainEnds(p, els, us);
    StepKeepsData(p, j, true, LastOf(us));
    SameDataTrans(p0, p, q);
    assert q.next == p.next;
  }

  lemma StartTracks(p: Pipe, tags: seq<string>, els: seq<El>)
    requires Names(p.items, tags, els)
    ensures Tracks(p, p, tags, els, [])
  {
    var d := DealOf(p, tags, els);
    assert Owned(d, 0) == {} && Rest(d, 0) == d.free;
  }

  /** The buffers written to differ if and only if the dealt positions do. */
  lemma DealtDiffer(p0: Pipe, next: Rb, d: Deal, us: seq<Rb>)
    requires Numbered(p0) && |us| + 1 == |d.kept| == |d.first| && Dealt(p0, next, d, us)
    ensures Distinct(us) <==> SpotsDiffer(d)
  {
    if Distinct(us) {
      forall s, t | 0 <= s < t < |us| && Spot(d, s).Some? ensures Spot(d, s) != Spot(d, t) {
        assert us[s] != us[t];
      }
    }
    if SpotsDiffer(d) {
      forall s, t | 0 <= s < t < |us| ensures us[s] != us[t] {
        assert Spot(d, s).Some? ==> Spot(d, s) != Spot(d, t);
      }
    }
  }

  /** From any state of the lists: relinking distinct registered elements succeeds, and each
      consecutive pair gets a buffer of its own if and only if, for every kept element but the last
      whose first buffer is unused, at least as many unused buffers that no kept element ahead of
      it owns come before that buffer as elements that were not kept come before it. */
  lemma RelinkWiresExactly(p: Pipe, tags: seq<string>, els: seq<El>)
    requires !p.linked && Numbered(p) && Names(p.items, tags, els) && |els| >= 1
    ensures var (q, ok) := Relink(p, tags);
            ok && ((exists us :: Wired(q, els, us)) <==> EnoughAhead(DealOf(p, tags, els)))
  {
    var d := DealOf(p, tags, els);
    var q := Relink(p, tags).0;
    DealIsProper(p, tags, els);
    StartTracks(p, tags, els);
    var vs := RelinkFollows(p, p, tags, els, []);
    DealtDiffer(p, q.next, d, vs);
    SpotsDifferExactly(d);
    assert Distinct(vs) ==> Wired(q, els, vs);
    if us :| Wired(q, els, us) {
      OneConnection(q, els, us, vs);
    }
  }

  /** Two elements with one output show that the condition failed. */
  lemma SharedOutputIsClash(p: Pipe, tags: seq<string>, els: seq<El>, s: nat, t: nat)
    requires !p.linked && Numbered(p) && Names(p.items, tags, els) && s < t < |els| - 1
    requires Lookup(Relink(p, tags).0.output, els[s]) == Lookup(Relink(p, tags).0.output, els[t])
    ensures !EnoughAhead(DealOf(p, tags, els)) && !exists us :: Wired(Relink(p, tags).0, els, us)
  {
    RelinkWiresExactly(p, tags, els);
    var q := Relink(p, tags).0;
    forall us ensures !Wired(q, els, us) {
      SharedOutput(q, els, us, s, t);
    }
  }

  // ---- When nothing can clash --------------------------------------------

  /** Whatever buffer was made for a kept element of the list is kept. */
  ghost predicate HostsKept(p: Pipe, els: seq<El>) {
    forall j, r, t | 0 <= j < |p.items| && 0 <= r < |p.bufs| && 0 <= t < |els| ::
      p.items[j].kept && p.items[j].el == els[t] && p.bufs[r].host == els[t] ==> p.bufs[r].kept
  }

  lemma KeptHostsAreEnough(p: Pipe, tags: seq<string>, els: seq<El>)
    requires Names(p.items, tags, els) && HostsKept(p, els)
    ensures EnoughAhead(DealOf(p, tags, els))
  {
    var d := DealOf(p, tags, els);
    forall t | 0 <= t < |els| && d.kept[t] && d.first[t].Some? ensures d.first[t].value !in d.free {
      var j := FirstTag(p.items, tags[t], 0).value;
      assert p.items[j].kept && p.items[j].el == els[t];
      assert p.bufs[d.first[t].value].host == els[t];
    }
  }

  /** The element was kept, and `u` is the buffer made for it. */
  ghost predicate Own(p: Pipe, e: El, u: Rb) {
    && (forall j | 0 <= j < |p.items| && p.items[j].el == e :: p.items[j].kept)
    && var r := FirstBuf(p.bufs, ByHost(e), 0);
       r.Some? && p.bufs[r.value].id == u
  }

  /** Where the buffer of an element comes from: a kept element has the first one made for it, any
      other one that was unused; or it is new and empty. */
  ghost predicate Origin(p: Pipe, q: Pipe, tag: string, e: El, u: Rb) {
    || (p.next <= u && Empty(q, u))
    || exists r :: OldSpot(p, tag, e, u, r)
  }

  ghost predicate OldSpot(p: Pipe, tag: string, e: El, u: Rb, r: nat) {
    && r < |p.bufs| && p.bufs[r].id == u
    && if KeptTag(p.items, tag) then FirstBuf(p.bufs, ByHost(e), 0) == Some(r) else Fits(p.bufs[r], Unused)
  }

  lemma SpotOrigin(p: Pipe, q: Pipe, tags: seq<string>, els: seq<El>, vs: seq<Rb>, t: nat)
    requires |tags| == |els| && t < |vs| < |els| && SameData(p, q) && Dealt(p, q.next, DealOf(p, tags, els), vs)
    ensures Origin(p, q, tags[t], els[t], vs[t])
  {
    var d := DealOf(p, tags, els);
    if Spot(d, t).Some? {
      var r := Spot(d, t).value;
      assert Rest(d, t) <= d.free;
      assert OldSpot(p, tags[t], els[t], vs[t], r);
    }
  }

  /** Then the chain is wired, kept elements write to their own buffers, and no buffer loses
      anything. */
  lemma RelinkWires(p: Pipe, tags: seq<string>, els: seq<El>) returns (vs: seq<Rb>)
    requires !p.linked && Numbered(p) && Names(p.items, tags, els) && HostsKept(p, els) && |els| >= 1
    ensures var (q, ok) := Relink(p, tags);
            ok && Wired(q, els, vs) && SameData(p, q)
    ensures |vs| + 1 == |els| && forall t, u | 0 <= t < |vs| && Own(p, els[t], u) :: vs[t] == u
    ensures forall t | 0 <= t < |vs| :: Origin(p, Relink(p, tags).0, tags[t], els[t], vs[t])
  {
    var d := DealOf(p, tags, els);
    DealIsProper(p, tags, els);
    StartTracks(p, tags, els);
    vs := RelinkFollows(p, p, tags, els, []);
    forall t | 0 <= t < |vs| ensures Origin(p, Relink(p, tags).0, tags[t], els[t], vs[t]) {
      SpotOrigin(p, Relink(p, tags).0, tags, els, vs, t);
    }
    DealtDiffer(p, Relink(p, tags).0.next, d, vs);
    SpotsDifferExactly(d);
    KeptHostsAreEnough(p, tags, els);
    forall t, u | 0 <= t < |vs| && Own(p, els[t], u) ensures vs[t] == u {
      assert Spot(d, t) == d.first[t];
    }
  }
}
