/** The watched-mode counting protocol as a sequential state machine. Every lock-scoped
    step of a generator (release, acquire) or of the watcher (the sweep) is one atomic
    transition on the shared grid, built from the same update functions the generator
    and watcher methods are proved against; an interleaving is any sequence of these
    transitions. */
module Protocol {
  import opened PySemantics
  import opened BucketGrid
  import opened Generators
  import opened Watchers

  /** The grid, the slot each generator reads, and each generator's pending bucket
      (its `last_bucket_index`). The number of generators is `n_generators`. */
  datatype World = World(slots: Slots, slotOf: seq<nat>, holding: seq<Option<nat>>)

  ghost predicate WellFormed(w: World)
  {
    && |w.slotOf| == |w.holding|
    && forall g :: 0 <= g < |w.holding| ==>
         && w.slotOf[g] < |w.slots|
         && (w.holding[g].Some? ==> w.holding[g].value < |w.slots[w.slotOf[g]]|)
  }

  /** The number of generators whose pending bucket is bucket `b` of slot `s`. */
  function Holders(slotOf: seq<nat>, holding: seq<Option<nat>>, s: nat, b: nat): nat
    requires |slotOf| == |holding|
  {
    if holding == [] then 0
    else (if slotOf[0] == s && holding[0] == Some(b) then 1 else 0) + Holders(slotOf[1..], holding[1..], s, b)
  }

  /** The protocol invariant: every bucket's entered counter exceeds its released
      counter by exactly the number of generators holding it. */
  ghost predicate Inv(w: World)
  {
    && WellFormed(w)
    && forall s, b :: ValidBucket(w.slots, s, b) ==>
         w.slots[s][b].entered == w.slots[s][b].released + Holders(w.slotOf, w.holding, s, b)
  }

  /** Step 1 of the generator loop, watched mode. */
  function GeneratorRelease(w: World, g: nat): (r: World)
    requires WellFormed(w) && g < |w.holding|
    ensures WellFormed(r) && r.slotOf == w.slotOf && r.holding == w.holding[g := None]
  {
    match w.holding[g]
    case None =>
      assert w.holding[g := None] == w.holding;
      w
    case Some(b) => w.(slots := Leave(w.slots, w.slotOf[g], b), holding := w.holding[g := None])
  }

  /** Step 3 of the generator loop, watched mode; an index outside the slot raises
      IndexError, which ends that generator and leaves the grid as it was. */
  function GeneratorAcquire(w: World, g: nat, index: int): (r: World)
    requires WellFormed(w) && g < |w.holding| && w.holding[g] == None
    ensures WellFormed(r) && r.slotOf == w.slotOf
    ensures r.holding == w.holding[g := Position(|w.slots[w.slotOf[g]]|, index)]
  {
    match Position(|w.slots[w.slotOf[g]]|, index)
    case None =>
      assert w.holding[g := None] == w.holding;
      w
    case Some(b) => w.(slots := Enter(w.slots, w.slotOf[g], b), holding := w.holding[g := Some(b)])
  }

  /** The watcher's sweep, with one multicast queue per generator. */
  function WatcherSweep(w: World): (r: World)
    ensures r.slotOf == w.slotOf && r.holding == w.holding
    ensures WellFormed(w) ==> WellFormed(r)
  {
    w.(slots := Swept(w.slots, |w.holding|))
  }

  /** Replacing one generator's pending bucket moves the holder count of a bucket by
      what that generator held before and holds after. */
  lemma {:induction false} HoldersUpdate(slotOf: seq<nat>, holding: seq<Option<nat>>, g: nat,
                                         pending: Option<nat>, s: nat, b: nat)
    requires |slotOf| == |holding| && g < |holding|
    ensures Holders(slotOf, holding[g := pending], s, b) + (if slotOf[g] == s then Held(holding[g], b) else 0)
            == Holders(slotOf, holding, s, b) + (if slotOf[g] == s then Held(pending, b) else 0)
    decreases g
  {
    if g == 0 {
      assert holding[g := pending][1..] == holding[1..];
    } else {
      HoldersUpdate(slotOf[1..], holding[1..], g - 1, pending, s, b);
      assert holding[g := pending][1..] == holding[1..][g - 1 := pending];
    }
  }

  /** A bucket that some generator holds has at least one holder, and no bucket has
      more holders than there are generators. */
  lemma {:induction false} HoldersBounds(slotOf: seq<nat>, holding: seq<Option<nat>>, s: nat, b: nat)
    requires |slotOf| == |holding|
    ensures Holders(slotOf, holding, s, b) <= |holding|
    ensures (exists g :: 0 <= g < |holding| && slotOf[g] == s && holding[g] == Some(b)) ==>
              Holders(slotOf, holding, s, b) >= 1
    decreases |holding|
  {
    if holding != [] {
      HoldersBounds(slotOf[1..], holding[1..], s, b);
      if exists g :: 0 <= g < |holding| && slotOf[g] == s && holding[g] == Some(b) {
        var g :| 0 <= g < |holding| && slotOf[g] == s && holding[g] == Some(b);
        if g > 0 {
          assert slotOf[1..][g - 1] == s && holding[1..][g - 1] == Some(b);
        }
      }
    }
  }

  /** Under the invariant every bucket has 0 <= entered - released <= n_generators. */
  lemma InvBoundsOutstanding(w: World, s: nat, b: nat)
    requires Inv(w) && ValidBucket(w.slots, s, b)
    ensures w.slots[s][b].released <= w.slots[s][b].entered <= w.slots[s][b].released + |w.holding|
  {
    HoldersBounds(w.slotOf, w.holding, s, b);
  }

  lemma ReleaseKeepsInv(w: World, g: nat)
    requires Inv(w) && g < |w.holding|
    ensures Inv(GeneratorRelease(w, g))
  {
    if w.holding[g].Some? {
      var w' := GeneratorRelease(w, g);
      forall s, b | ValidBucket(w'.slots, s, b)
        ensures w'.slots[s][b].entered == w'.slots[s][b].released + Holders(w'.slotOf, w'.holding, s, b)
      {
        HoldersUpdate(w.slotOf, w.holding, g, None, s, b);
      }
    }
  }

  lemma AcquireKeepsInv(w: World, g: nat, index: int)
    requires Inv(w) && g < |w.holding| && w.holding[g] == None
    ensures Inv(GeneratorAcquire(w, g, index))
  {
    var position := Position(|w.slots[w.slotOf[g]]|, index);
    if position.Some? {
      var w' := GeneratorAcquire(w, g, index);
      forall s, b | ValidBucket(w'.slots, s, b)
        ensures w'.slots[s][b].entered == w'.slots[s][b].released + Holders(w'.slotOf, w'.holding, s, b)
      {
        HoldersUpdate(w.slotOf, w.holding, g, position, s, b);
      }
    }
  }

  lemma SweepKeepsInv(w: World)
    requires Inv(w)
    ensures Inv(WatcherSweep(w))
  {
    SweepResetsExactlyTheReclaimable(w.slots, |w.holding|);
    var w' := WatcherSweep(w);
    forall s, b | ValidBucket(w'.slots, s, b)
      ensures w'.slots[s][b].entered == w'.slots[s][b].released + Holders(w'.slotOf, w'.holding, s, b)
    {
      assert ValidBucket(w.slots, s, b);
    }
  }

  /** Under the invariant the sweep resets a bucket exactly when no generator holds it
      and all n_generators have entered it: a bucket still held is never reclaimed. */
  lemma SweepReclaimsOnlyUnheld(w: World, s: nat, b: nat)
    requires Inv(w) && ValidBucket(w.slots, s, b)
    ensures Reclaimable(w.slots[s][b], |w.holding|) <==>
              Holders(w.slotOf, w.holding, s, b) == 0 && w.slots[s][b].entered == |w.holding|
    ensures forall g :: 0 <= g < |w.holding| && w.slotOf[g] == s && w.holding[g] == Some(b) ==>
              WatcherSweep(w).slots[s][b] == w.slots[s][b]
  {
    HoldersBounds(w.slotOf, w.holding, s, b);
    SweepResetsExactlyTheReclaimable(w.slots, |w.holding|);
  }

  /** The scenario of three generators that enter one bucket in the order G1, G3, G2 and
      release it in the order G2, G1, G3: the sweep then reclaims it. */
  lemma ThreeGeneratorsReclaim(payload: Payload)
    ensures var w0 := World([[Bucket(1, payload, 0, 0)]], [0, 0, 0], [None, None, None]);
            var w1 := GeneratorAcquire(w0, 0, 0);
            var w2 := GeneratorAcquire(w1, 2, 0);
            var w3 := GeneratorAcquire(w2, 1, 0);
            var w4 := GeneratorRelease(w3, 1);
            var w5 := GeneratorRelease(w4, 0);
            var w6 := GeneratorRelease(w5, 2);
            && Inv(w6)
            && w6.slots[0][0] == Bucket(1, payload, 3, 3)
            && WatcherSweep(w6).slots[0][0] == Bucket(0, payload, 0, 0)
  {
    var w0 := World([[Bucket(1, payload, 0, 0)]], [0, 0, 0], [None, None, None]);
    assert Holders(w0.slotOf, w0.holding, 0, 0) == 0;
    assert Inv(w0);
    var w1 := GeneratorAcquire(w0, 0, 0);
    AcquireKeepsInv(w0, 0, 0);
    var w2 := GeneratorAcquire(w1, 2, 0);
    AcquireKeepsInv(w1, 2, 0);
    var w3 := GeneratorAcquire(w2, 1, 0);
    AcquireKeepsInv(w2, 1, 0);
    var w4 := GeneratorRelease(w3, 1);
    ReleaseKeepsInv(w3, 1);
    var w5 := GeneratorRelease(w4, 0);
    ReleaseKeepsInv(w4, 0);
    var w6 := GeneratorRelease(w5, 2);
    ReleaseKeepsInv(w5, 2);
    assert w6.slots[0][0] == Bucket(1, payload, 3, 3);
    SweepResetsExactlyTheReclaimable(w6.slots, 3);
  }
}
