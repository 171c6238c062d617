/** Which free buffer goes to whom when a list of elements is relinked
    (components/audio_pipeline/audio_pipeline.c), as a question about positions alone, and when two
    elements of the list get the same one. */
module PipelineDeal {
  import opened Basics

  /** `free` are the positions of rb_list that are neither linked nor kept at the start; for each
      element of the list in turn, `kept` says whether it was kept and `first` where the first
      buffer made for it stands. */
  datatype Deal = Deal(free: set<nat>, kept: seq<bool>, first: seq<Option<nat>>)

  /** No buffer was made for two elements. */
  ghost predicate Proper(d: Deal) {
    && |d.kept| == |d.first|
    && forall s, t | 0 <= s < t < |d.first| && d.first[s].Some? :: d.first[s] != d.first[t]
  }

  /** How many of the first `t` elements were not kept. */
  function Others(d: Deal, t: nat): nat
    requires t <= |d.kept|
  {
    if t == 0 then 0 else Others(d, t - 1) + if d.kept[t - 1] then 0 else 1
  }

  /** The positions of the buffers made for the kept ones among the first `t` elements. */
  ghost function Owned(d: Deal, t: nat): set<nat>
    requires t <= |d.kept| == |d.first|
  {
    set s | 0 <= s < t && d.kept[s] && d.first[s].Some? :: d.first[s].value
  }

  /** The free positions before that of element `t` which no kept element ahead of it claims. */
  ghost function Ahead(d: Deal, t: nat): set<nat>
    requires t < |d.kept| == |d.first| && d.first[t].Some?
  {
    set q | q in d.free && q < d.first[t].value && q !in Owned(d, t)
  }

  /** The condition: for every kept element but the last whose first buffer is free, there are
      at least as many such positions as elements that were not kept stand before it in the list. */
  ghost predicate EnoughAhead(d: Deal)
    requires |d.kept| == |d.first|
  {
    forall t | 0 <= t < |d.kept| - 1 && d.kept[t] && d.first[t].Some? && d.first[t].value in d.free ::
      |Ahead(d, t)| >= Others(d, t)
  }

  // ---- The deal ----------------------------------------------------------

  ghost function Least(s: set<nat>): (x: nat)
    requires s != {}
    ensures x in s && forall y <- s :: x <= y
  {
    var x :| x in s;
    if s == {x} then x
    else
      var y := Least(s - {x});
      assert forall z <- s :: z == x || z in s - {x};
      if x < y then x else y
  }

  /** The positions given to elements that were not kept, before element `t`: the first that is
      still free, each time. */
  ghost function Given(d: Deal, t: nat): set<nat>
    requires t <= |d.kept| == |d.first|
    decreases t, 0
  {
    if t == 0 then {}
    else if d.kept[t - 1] || Rest(d, t - 1) == {} then Given(d, t - 1)
    else Given(d, t - 1) + {Least(Rest(d, t - 1))}
  }

  /** The positions that are still free then. */
  ghost function Rest(d: Deal, t: nat): set<nat>
    requires t <= |d.kept| == |d.first|
    decreases t, 1
  {
    d.free - Given(d, t) - Owned(d, t)
  }

  /** What element `t` gets: None stands for a buffer of its own that has to be made. */
  ghost function Spot(d: Deal, t: nat): Option<nat>
    requires t < |d.kept| == |d.first|
  {
    if d.kept[t] then d.first[t]
    else if Rest(d, t) == {} then None
    else Some(Least(Rest(d, t)))
  }

  lemma OwnedGrows(d: Deal, t: nat)
    requires t < |d.kept| == |d.first|
    ensures Owned(d, t + 1) == Owned(d, t) + if d.kept[t] && d.first[t].Some? then {d.first[t].value} else {}
  {
    var more := if d.kept[t] && d.first[t].Some? then {d.first[t].value} else {};
    forall x | x in Owned(d, t + 1)
      ensures x in Owned(d, t) + more
    {
      var s :| 0 <= s < t + 1 && d.kept[s] && d.first[s].Some? && d.first[s].value == x;
    }
  }

  /** Given are free positions, one at most for each element that was not kept. */
  lemma {:induction false} GivenIsFree(d: Deal, t: nat)
    requires t <= |d.kept| == |d.first|
    ensures Given(d, t) <= d.free && |Given(d, t)| <= Others(d, t)
    decreases t
  {
    if t > 0 {
      GivenIsFree(d, t - 1);
      assert Rest(d, t - 1) <= d.free;
    }
  }

  /** No free position is skipped. */
  lemma {:induction false} GivenInOrder(d: Deal, t: nat, x: nat, q: nat)
    requires t <= |d.kept| == |d.first| && x in Given(d, t) && q in d.free && q < x
    ensures q in Given(d, t) || q in Owned(d, t)
    decreases t
  {
    OwnedGrows(d, t - 1);
    if x in Given(d, t - 1) {
      GivenInOrder(d, t - 1, x, q);
    } else {
      assert x == Least(Rest(d, t - 1));
      assert q !in Rest(d, t - 1);
    }
  }

  /** While a position is free, everything given lies before it and everyone got something. */
  lemma {:induction false} GivenBefore(d: Deal, t: nat, r: nat)
    requires t <= |d.kept| == |d.first| && r in Rest(d, t)
    ensures |Given(d, t)| == Others(d, t)
    ensures forall x <- Given(d, t) :: x < r
    decreases t
  {
    if t > 0 {
      OwnedGrows(d, t - 1);
      assert r in Rest(d, t - 1);
      GivenBefore(d, t - 1, r);
      if !d.kept[t - 1] {
        var x := Least(Rest(d, t - 1));
        assert x !in Given(d, t - 1) && x <= r && x in Given(d, t);
      }
    }
  }

  /** The buffer made for a kept element has been given away before its turn. */
  ghost predicate ClashAt(d: Deal, t: nat)
    requires t < |d.kept| == |d.first|
  {
    d.kept[t] && d.first[t].Some? && d.first[t].value in Given(d, t)
  }

  lemma {:induction false} GivenApart(d: Deal, t: nat)
    requires t <= |d.kept| == |d.first|
    requires forall s | 0 <= s < t :: !ClashAt(d, s)
    ensures Given(d, t) !! Owned(d, t)
    decreases t
  {
    if t > 0 {
      GivenApart(d, t - 1);
      OwnedGrows(d, t - 1);
      assert !ClashAt(d, t - 1);
      assert Rest(d, t - 1) !! Owned(d, t - 1);
    }
  }

  /** Whatever an element gets is no longer free. */
  lemma RestShrinks(d: Deal, t: nat)
    requires t < |d.kept| == |d.first|
    ensures Rest(d, t + 1) == Rest(d, t) - if Spot(d, t).Some? then {Spot(d, t).value} else {}
  {
    OwnedGrows(d, t);
  }

  // ---- The condition is exact --------------------------------------------

  lemma ClashNeeds(d: Deal, t: nat)
    requires Proper(d) && t < |d.kept| && ClashAt(d, t)
    ensures d.first[t].value in d.free && |Ahead(d, t)| < Others(d, t)
  {
    var r := d.first[t].value;
    GivenIsFree(d, t);
    forall q | q in Ahead(d, t)
      ensures q in Given(d, t) - {r}
    {
      GivenInOrder(d, t, r, q);
    }
    SubsetSize(Ahead(d, t), Given(d, t) - {r});
  }

  lemma NoClashNeeds(d: Deal, t: nat)
    requires Proper(d) && t < |d.kept| && d.kept[t] && d.first[t].Some? && d.first[t].value in d.free
    requires forall s | 0 <= s <= t :: !ClashAt(d, s)
    ensures |Ahead(d, t)| >= Others(d, t)
  {
    var r := d.first[t].value;
    assert !ClashAt(d, t);
    assert r !in Owned(d, t);
    GivenBefore(d, t, r);
    GivenApart(d, t);
    GivenIsFree(d, t);
    SubsetSize(Given(d, t), Ahead(d, t));
  }

  lemma ClashExactly(d: Deal)
    requires Proper(d)
    ensures EnoughAhead(d) <==> forall t | 0 <= t < |d.kept| - 1 :: !ClashAt(d, t)
  {
    if EnoughAhead(d) {
      forall t | 0 <= t < |d.kept| - 1 ensures !ClashAt(d, t) {
        if ClashAt(d, t) {
          ClashNeeds(d, t);
        }
      }
    }
    if forall t | 0 <= t < |d.kept| - 1 :: !ClashAt(d, t) {
      forall t | 0 <= t < |d.kept| - 1 && d.kept[t] && d.first[t].Some? && d.first[t].value in d.free
        ensures |Ahead(d, t)| >= Others(d, t)
      {
        NoClashNeeds(d, t);
      }
    }
  }

  // ---- What it means for the buffers -------------------------------------

  /** No two elements but the last get the same position. */
  ghost predicate SpotsDiffer(d: Deal)
    requires |d.kept| == |d.first|
  {
    forall s, t | 0 <= s < t < |d.kept| - 1 && Spot(d, s).Some? :: Spot(d, s) != Spot(d, t)
  }

  lemma {:induction false} GivenToSomeone(d: Deal, t: nat, x: nat) returns (s: nat)
    requires t <= |d.kept| == |d.first| && x in Given(d, t)
    ensures s < t && !d.kept[s] && Spot(d, s) == Some(x)
    decreases t
  {
    if x in Given(d, t - 1) {
      s := GivenToSomeone(d, t - 1, x);
    } else {
      s := t - 1;
    }
  }

  lemma {:induction false} GivenStays(d: Deal, s: nat, t: nat)
    requires s <= t <= |d.kept| == |d.first|
    ensures Given(d, s) <= Given(d, t)
    decreases t
  {
    if s < t {
      GivenStays(d, s, t - 1);
    }
  }

  lemma SameSpotIsClash(d: Deal, s: nat, t: nat)
    requires Proper(d) && s < t < |d.kept| && Spot(d, s).Some? && Spot(d, s) == Spot(d, t)
    ensures ClashAt(d, t)
  {
    var x := Spot(d, s).value;
    var own := Owned(d, t);
    assert d.kept[s] ==> x in own;
    assert !d.kept[s] ==> x in Given(d, s + 1);
    GivenStays(d, s + 1, t);
  }

  lemma ClashIsSameSpot(d: Deal, t: nat)
    requires t < |d.kept| == |d.first| && ClashAt(d, t)
    ensures exists s :: 0 <= s < t && Spot(d, s).Some? && Spot(d, s) == Spot(d, t)
  {
    var s := GivenToSomeone(d, t, d.first[t].value);
    assert Spot(d, s) == Spot(d, t);
  }

  /** All get different buffers if and only if the condition holds. */
  lemma SpotsDifferExactly(d: Deal)
    requires Proper(d)
    ensures SpotsDiffer(d) <==> EnoughAhead(d)
  {
    ClashExactly(d);
    if SpotsDiffer(d) {
      forall t | 0 <= t < |d.kept| - 1 ensures !ClashAt(d, t) {
        if ClashAt(d, t) {
          ClashIsSameSpot(d, t);
        }
      }
    } else {
      var s, t :| 0 <= s < t < |d.kept| - 1 && Spot(d, s).Some? && Spot(d, s) == Spot(d, t);
      SameSpotIsClash(d, s, t);
    }
  }
}
