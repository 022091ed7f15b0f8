/**
 * The singleton base behaviour (FK.Utility.Singleton<T>): one static
 * `Instance` slot per singleton type. The first object to wake up claims the
 * slot, any further object that wakes up while the slot is held is destroyed,
 * and destroying the holder frees the slot.
 *
 * One `Singleton` object stands for the statics of one type T; the engine's
 * set of live (not destroyed) objects of that type is modelled next to it.
 */
module Utility {

  /** A MonoBehaviour of the singleton type, by identity. */
  class Behaviour {
    constructor() {}
  }

  /** The slot and the live objects, as a value. */
  datatype Slot = Slot(instance: Behaviour?, live: set<Behaviour>)

  /** The holder, if any, is alive. */
  predicate Consistent(s: Slot) {
    s.instance != null ==> s.instance in s.live
  }

  /** `Awake` of `b`: claim a free slot, or destroy `b` if another object holds it. */
  function AwakeStep(s: Slot, b: Behaviour): Slot {
    if s.instance == null then s.(instance := b)
    else if s.instance != b then s.(live := s.live - {b})
    else s
  }

  /** The destruction of `b`: it leaves the live set, and `OnDestroy` frees the slot if `b` held it. */
  function DestroyStep(s: Slot, b: Behaviour): Slot {
    Slot(if s.instance == b then null else s.instance, s.live - {b})
  }

  /** The objects in `bs` waking up one after another. */
  function AwakeAll(s: Slot, bs: seq<Behaviour>): Slot
    decreases |bs|
  {
    if bs == [] then s else AwakeAll(AwakeStep(s, bs[0]), bs[1..])
  }

  /** Waking up a live object keeps the holder alive, and never destroys the holder. */
  lemma AwakeKeepsConsistent(s: Slot, b: Behaviour)
    requires Consistent(s) && b in s.live
    ensures Consistent(AwakeStep(s, b))
    ensures AwakeStep(s, b).instance != null
    ensures s.instance != null ==> AwakeStep(s, b).instance == s.instance
  {
  }

  /** Destruction keeps the holder alive. */
  lemma DestroyKeepsConsistent(s: Slot, b: Behaviour)
    requires Consistent(s)
    ensures Consistent(DestroyStep(s, b))
    ensures b != s.instance ==> DestroyStep(s, b).instance == s.instance
  {
  }

  /** Once the slot is held, waking up more objects keeps the holder and destroys every other one. */
  lemma {:induction false} HeldSlotStays(s: Slot, bs: seq<Behaviour>)
    requires s.instance != null
    ensures AwakeAll(s, bs).instance == s.instance
    ensures AwakeAll(s, bs).live == s.live - (set i | 0 <= i < |bs| && bs[i] != s.instance :: bs[i])
    decreases |bs|
  {
    if bs != [] {
      var next := AwakeStep(s, bs[0]);
      HeldSlotStays(next, bs[1..]);
      var rest := set i | 0 <= i < |bs[1..]| && bs[1..][i] != s.instance :: bs[1..][i];
      var all := set i | 0 <= i < |bs| && bs[i] != s.instance :: bs[i];
      assert all == rest + (if bs[0] != s.instance then {bs[0]} else {}) by {
        forall b | b in all ensures b in rest + (if bs[0] != s.instance then {bs[0]} else {}) {
          var i :| 0 <= i < |bs| && bs[i] != s.instance && bs[i] == b;
          if i > 0 {
            assert bs[1..][i - 1] == b;
          }
        }
        forall b | b in rest ensures b in all {
          var i :| 0 <= i < |bs[1..]| && bs[1..][i] != s.instance && bs[1..][i] == b;
          assert bs[i + 1] == b;
        }
      }
    }
  }

  /** From a free slot, the first object to wake up becomes the instance and every other one is destroyed. */
  lemma FirstAwakeWins(s: Slot, bs: seq<Behaviour>)
    requires s.instance == null && |bs| > 0
    ensures AwakeAll(s, bs).instance == bs[0]
    ensures AwakeAll(s, bs).live == s.live - (set i | 0 <= i < |bs| && bs[i] != bs[0] :: bs[i])
  {
    var next := AwakeStep(s, bs[0]);
    HeldSlotStays(next, bs[1..]);
    var rest := set i | 0 <= i < |bs[1..]| && bs[1..][i] != bs[0] :: bs[1..][i];
    var all := set i | 0 <= i < |bs| && bs[i] != bs[0] :: bs[i];
    assert all == rest by {
      forall b | b in all ensures b in rest {
        var i :| 0 <= i < |bs| && bs[i] != bs[0] && bs[i] == b;
        assert bs[1..][i - 1] == b;
      }
      forall b | b in rest ensures b in all {
        var i :| 0 <= i < |bs[1..]| && bs[1..][i] != bs[0] && bs[1..][i] == b;
        assert bs[i + 1] == b;
      }
    }
  }

  /** The statics of one singleton type and its live objects. */
  class Singleton {
    var instance: Behaviour?     // Instance, null while no object holds the slot
    var live: set<Behaviour>     // the objects of the type the engine has not destroyed

    function State(): Slot
      reads this
    {
      Slot(instance, live)
    }

    ghost predicate Valid()
      reads this
    {
      Consistent(State())
    }

    /** No object of the type exists yet. */
    constructor()
      ensures instance == null && live == {}
      ensures Valid()
    {
      instance := null;
      live := {};
    }

    /** `IsInitialized`: some object holds the slot. */
    predicate IsInitialized()
      reads this
    {
      instance != null
    }

    /** The engine creating an object of the type, which is alive until destroyed. */
    method Create() returns (b: Behaviour)
      modifies this`live
      ensures fresh(b) && live == old(live) + {b}
    {
      b := new Behaviour();
      live := live + {b};
    }

    /**
     * `Awake` of `self`: a free slot is claimed; when another object holds it,
     * `self` is destroyed and the slot kept; when `self` holds it, nothing changes.
     * The engine wakes up only live objects, and then the holder stays alive.
     */
    method Awake(self: Behaviour)
      modifies this
      ensures State() == AwakeStep(old(State()), self)
      ensures IsInitialized()
      ensures old(IsInitialized()) ==> instance == old(instance)
      ensures old(Valid()) && self in old(live) ==> Valid()
    {
      if !IsInitialized() {
        instance := self;
      } else if instance != self {
        live := live - {self};
      }
    }

    /** The destruction of `self`, ending in `OnDestroy`: the slot is freed only if `self` holds it. */
    method OnDestroy(self: Behaviour)
      modifies this
      ensures State() == DestroyStep(old(State()), self)
      ensures old(instance) == self ==> !IsInitialized()
      ensures old(instance) != self ==> instance == old(instance)
      ensures old(Valid()) ==> Valid()
    {
      live := live - {self};
      if instance == self {
        instance := null;
      }
    }
  }
}
