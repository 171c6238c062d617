/** What it means that elements of a pipeline are wired up as a chain of ring buffers
    (components/audio_pipeline/audio_pipeline.c). */
module PipelineChain {
  import opened Basics
  import opened PipelineLinks

  ghost predicate Distinct<T>(s: seq<T>) {
    forall i, j | 0 <= i < j < |s| :: s[i] != s[j]
  }

  /** Along the chain `els` each element writes to the buffer of `us` that the next one reads. */
  ghost predicate Connected(p: Pipe, els: seq<El>, us: seq<Rb>) {
    && |us| + 1 == |els|
    && (forall t {:trigger els[t]} | 0 <= t < |us| :: Lookup(p.output, els[t]) == Some(us[t]))
    && (forall t {:trigger els[t]} | 1 <= t < |els| :: Lookup(p.input, els[t]) == Some(us[t - 1]))
  }

  /** Each consecutive pair of elements shares one buffer, and no two pairs share the same. */
  ghost predicate Wired(p: Pipe, els: seq<El>, us: seq<Rb>) {
    Connected(p, els, us) && Distinct(us)
  }

  /** No element is registered twice. */
  ghost predicate Registered(p: Pipe) {
    forall i, j | 0 <= i < j < |p.items| :: p.items[i].el != p.items[j].el
  }

  /** The tags name the elements `els`, all different. */
  ghost predicate Names(items: seq<Item>, tags: seq<string>, els: seq<El>) {
    && |tags| == |els|
    && Distinct(els)
    && forall t | 0 <= t < |tags| ::
         FirstTag(items, tags[t], 0).Some? && items[FirstTag(items, tags[t], 0).value].el == els[t]
  }

  /** Buffers are numbered apart. */
  ghost predicate Numbered(p: Pipe) {
    && (forall r | 0 <= r < |p.bufs| :: p.bufs[r].id < p.next)
    && (forall r, s | 0 <= r < s < |p.bufs| :: p.bufs[r].id != p.bufs[s].id)
  }

  /** The buffer is there and holds nothing. */
  ghost predicate Empty(p: Pipe, id: Rb) {
    id in p.data && p.data[id] == []
  }

  /** The first |us| elements of the chain are in place and write to `us`. */
  ghost predicate Chained(input: map<El, Rb>, output: map<El, Rb>, els: seq<El>, us: seq<Rb>) {
    && |us| <= |els|
    && (forall t {:trigger els[t]} | 0 <= t < |us| :: Lookup(output, els[t]) == Some(us[t]))
    && (forall t {:trigger els[t]} | 1 <= t < |us| :: Lookup(input, els[t]) == Some(us[t - 1]))
  }

  function LastOf(us: seq<Rb>): Option<Rb> {
    if us == [] then None else Some(us[|us| - 1])
  }

  function Joined(input: map<El, Rb>, e: El, us: seq<Rb>): map<El, Rb> {
    if us == [] then input else input[e := us[|us| - 1]]
  }

  lemma ChainGrows(input: map<El, Rb>, output: map<El, Rb>, els: seq<El>, us: seq<Rb>, u: Rb)
    requires Chained(input, output, els, us) && |us| < |els| && Distinct(els)
    ensures Chained(Joined(input, els[|us|], us), output[els[|us|] := u], els, us + [u])
  {
  }

  lemma ChainEnds(p: Pipe, els: seq<El>, us: seq<Rb>)
    requires |us| + 1 == |els| && Distinct(els)
    requires Chained(p.input, p.output, els, us)
    ensures Connected(p.(input := Joined(p.input, els[|us|], us)), els, us)
  {
  }

  /** Elements that share an output are not wired. */
  lemma SharedOutput(p: Pipe, els: seq<El>, us: seq<Rb>, s: nat, t: nat)
    requires s < t < |els| - 1 && Lookup(p.output, els[s]) == Lookup(p.output, els[t])
    ensures !Wired(p, els, us)
  {
  }

  /** A chain is connected by one list of buffers only. */
  lemma OneConnection(p: Pipe, els: seq<El>, us: seq<Rb>, vs: seq<Rb>)
    requires Connected(p, els, us) && Connected(p, els, vs)
    ensures us == vs
  {
    forall t | 0 <= t < |us| ensures us[t] == vs[t] {
      assert Lookup(p.output, els[t]) == Some(us[t]);
    }
  }

  /** The entry changes its mark only, so tags still name the same elements. */
  lemma SameNames(items: seq<Item>, j: nat, it: Item, tags: seq<string>, els: seq<El>)
    requires Names(items, tags, els) && j < |items|
    requires it.el == items[j].el && it.tag == items[j].tag
    ensures Names(items[j := it], tags, els)
  {
    forall t | 0 <= t < |tags|
      ensures FirstTag(items[j := it], tags[t], 0) == FirstTag(items, tags[t], 0)
    {
      SameTag(items, j, it, tags[t], 0);
    }
  }

  lemma {:induction false} SameTag(items: seq<Item>, j: nat, it: Item, tag: string, i: nat)
    requires j < |items| && it.tag == items[j].tag
    ensures FirstTag(items[j := it], tag, i) == FirstTag(items, tag, i)
    decreases |items| - i
  {
    if i < |items| {
      SameTag(items, j, it, tag, i + 1);
    }
  }
}
