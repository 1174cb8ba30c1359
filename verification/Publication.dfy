/**
 Publication of a write plan: storage is reserved before anything is sent, and
 after acceptance the log is replayed in command order inside that storage.
 The replay is proved to give exactly what the splitting index resolves.
 */
module Publication {
  import opened Common
  import opened Ranges
  import opened Deltas
  import opened BufferPlan

  /** Storage resized for the slot, with the first `w` writes replayed in order. */
  ghost function Replay(shadow: BufferShadow, plan: Plan, slot: nat, length: nat, w: nat): seq<byte>
    requires w <= |plan.writes|
  {
    seq(length, (i: int) requires 0 <= i =>
      Resolved(Contents(shadow), plan.writes, slot, LastWriter(plan.writes[..w], slot, i), i))
  }

  lemma ReplayStep(shadow: BufferShadow, plan: Plan, slot: nat, length: nat, w: nat)
    requires w < |plan.writes| && plan.writes[w].Valid()
    requires plan.writes[w].slot == slot ==> plan.writes[w].End() <= length
    ensures Replay(shadow, plan, slot, length, w + 1)
      == if plan.writes[w].slot == slot
         then CopyInto(Replay(shadow, plan, slot, length, w), plan.writes[w].start, plan.writes[w].Bytes())
         else Replay(shadow, plan, slot, length, w)
  {
    assert plan.writes[..w + 1] == plan.writes[..w] + [plan.writes[w]];
    forall i: nat { LastWriterPush(plan.writes[..w], plan.writes[w], slot, i); }
  }

  /** Chronological replay of every write yields the indexed view. */
  lemma ReplayIsView(shadows: seq<BufferShadow>, plan: Plan, slot: nat)
    requires Built(shadows, plan) && slot < |shadows| && Lookup(plan.updates, slot).Some?
    ensures Replay(shadows[slot], plan, slot, Lookup(plan.updates, slot).value.length, |plan.writes|)
      == View(shadows[slot], plan, slot)
  {
    assert plan.writes[..|plan.writes|] == plan.writes;
    IndexBuilt(shadows, plan, slot);
  }

  lemma ReplayStart(shadow: BufferShadow, plan: Plan, slot: nat, length: nat)
    requires |Contents(shadow)| <= length
    ensures Replay(shadow, plan, slot, length, 0) == Slice(Contents(shadow), 0, length)
  {
  }

  /** The accepted shadows and the storage allocated for each. */
  class ShadowStore {
    var shadows: seq<BufferShadow>
    var capacities: seq<nat>

    predicate Valid()
      reads this
    {
      |capacities| == |shadows| && forall s :: 0 <= s < |shadows| ==> |Contents(shadows[s])| <= capacities[s]
    }

    /** Whether making room for an update takes an allocation. */
    predicate Allocates(u: BufferRangeUpdate)
      reads this
    {
      && u.slot < |shadows| && |capacities| == |shadows|
      && (shadows[u.slot].bytes.None? || capacities[u.slot] < u.length)
    }

    constructor (shadows: seq<BufferShadow>)
      ensures Valid() && this.shadows == shadows
    {
      this.shadows := shadows;
      capacities := seq(|shadows|, (s: int) requires 0 <= s < |shadows| => |Contents(shadows[s])|);
    }
  }

  /** `PreparedBufferOnlyPlan`: a plan whose storage is reserved. */
  class PreparedPlan {
    const updates: seq<BufferRangeUpdate>
    const writes: seq<BufferRangeWrite>
    /** Capacity reserved for buffers that had no storage. */
    var reserved: map<nat, nat>

    function State(): Plan {
      Plan(updates, writes)
    }

    constructor (plan: Plan)
      ensures State() == plan && reserved == map[]
    {
      updates := plan.updates;
      writes := plan.writes;
      reserved := map[];
    }

    /** Room for update `k`: in the accepted storage, or in storage made for it. */
    ghost predicate HasRoom(store: ShadowStore, k: nat)
      reads this, store
    {
      && k < |updates| && updates[k].slot < |store.shadows| == |store.capacities|
      && if store.shadows[updates[k].slot].bytes.Some? then updates[k].length <= store.capacities[updates[k].slot]
         else updates[k].slot in reserved && updates[k].length <= reserved[updates[k].slot]
    }

    ghost predicate Reserved(store: ShadowStore)
      reads this, store
    {
      Built(store.shadows, State()) && store.Valid() && forall k :: 0 <= k < |updates| ==> HasRoom(store, k)
    }

    method ReserveOne(store: ShadowStore, k: nat, granted: Option<nat>) returns (made: bool)
      requires store.Valid() && k < |updates| && updates[k].slot < |store.shadows|
      requires forall j :: 0 <= j < |updates| && j != k ==> updates[j].slot != updates[k].slot
      modifies store`capacities, this`reserved
      ensures store.Valid() && forall s :: 0 <= s < |store.shadows| ==> old(store.capacities)[s] <= store.capacities[s]
      ensures made <==> old(store.Allocates(updates[k])) ==> granted.Some?
      ensures made ==> HasRoom(store, k)
      ensures forall j :: 0 <= j < |updates| && j != k ==>
        && store.Allocates(updates[j]) == old(store.Allocates(updates[j]))
        && (old(HasRoom(store, j)) ==> HasRoom(store, j))
    {
      var u := updates[k];
      if !store.Allocates(u) {
        return true;
      }
      if granted.None? {
        return false;
      }
      if store.shadows[u.slot].bytes.Some? {
        store.capacities := store.capacities[u.slot := u.length + granted.value];
      } else {
        reserved := reserved[u.slot := u.length + granted.value];
      }
      return true;
    }

    /**
     Replay the log onto the accepted shadows inside the reserved storage. A
     submission that was not accepted publishes nothing.
     */
    method Publish(store: ShadowStore, acceptance: Result<(), PlanError>) returns (result: Result<(), PlanError>)
      requires Reserved(store)
      modifies store
      ensures result == acceptance && store.Valid()
      ensures acceptance.Err? ==> store.shadows == old(store.shadows) && store.capacities == old(store.capacities)
      ensures acceptance.Ok? ==> store.shadows == Published(old(store.shadows), State())
      ensures forall s :: 0 <= s < |store.shadows| && old(store.shadows)[s].bytes.Some? ==>
        store.capacities[s] == old(store.capacities)[s]
    {
      if acceptance.Err? {
        return acceptance;
      }
      TakeReserved(store);
      var after := GrowStorage(store.shadows);
      after := ReplayWrites(store.shadows, after);
      after := AdvanceRevisions(store.shadows, after);
      PublishedFits(store.shadows, State(), store.capacities);
      store.shadows := after;
      return acceptance;
    }

    /** Buffers without storage take what was reserved for them. */
    method TakeReserved(store: ShadowStore)
      requires Reserved(store)
      modifies store`capacities
      ensures store.Valid()
      ensures forall s :: 0 <= s < |store.shadows| && store.shadows[s].bytes.Some? ==>
        store.capacities[s] == old(store.capacities)[s]
      ensures forall k :: 0 <= k < |updates| ==>
        updates[k].slot < |store.shadows| && updates[k].length <= store.capacities[updates[k].slot]
    {
      UpdatesInside(store.shadows, State());
      var k := 0;
      while k < |updates|
        invariant 0 <= k <= |updates| && store.Valid()
        invariant forall s :: 0 <= s < |store.shadows| && store.shadows[s].bytes.Some? ==>
          store.capacities[s] == old(store.capacities)[s]
        invariant forall j :: 0 <= j < k ==> updates[j].length <= store.capacities[updates[j].slot]
        invariant forall j :: 0 <= j < |updates| ==> old(HasRoom(store, j))
      {
        assert old(HasRoom(store, k));
        if store.shadows[updates[k].slot].bytes.None? {
          store.capacities := store.capacities[updates[k].slot := reserved[updates[k].slot]];
        }
        k := k + 1;
      }
    }

    method GrowStorage(shadows: seq<BufferShadow>) returns (after: seq<BufferShadow>)
      requires Built(shadows, State())
      ensures |after| == |shadows|
      ensures forall s :: 0 <= s < |shadows| ==> ReplayedTo(shadows[s], State(), s, 0, after[s])
    {
      after := shadows;
      var k := 0;
      while k < |updates|
        invariant 0 <= k <= |updates| && |after| == |shadows|
        invariant forall s :: 0 <= s < |shadows| ==>
          after[s] == (if Find(updates, s).Some? && Find(updates, s).value < k
            then shadows[s].(bytes := Some(Slice(Contents(shadows[s]), 0, updates[Find(updates, s).value].length)))
            else shadows[s])
      {
        var slot := updates[k].slot;
        FindUnique(updates, k);
        assert Lookup(updates, slot).Some?;
        after := after[slot := after[slot].(bytes := Some(Slice(Contents(after[slot]), 0, updates[k].length)))];
        k := k + 1;
      }
      forall s | 0 <= s < |shadows| && Lookup(updates, s).Some? {
        ReplayStart(shadows[s], State(), s, Lookup(updates, s).value.length);
      }
    }

    method ReplayWrites(shadows: seq<BufferShadow>, grown: seq<BufferShadow>) returns (after: seq<BufferShadow>)
      requires Built(shadows, State()) && |grown| == |shadows|
      requires forall s :: 0 <= s < |shadows| ==> ReplayedTo(shadows[s], State(), s, 0, grown[s])
      ensures |after| == |shadows|
      ensures forall s :: 0 <= s < |shadows| ==> ReplayedTo(shadows[s], State(), s, |writes|, after[s])
    {
      after := grown;
      var w := 0;
      while w < |writes|
        invariant 0 <= w <= |writes| && |after| == |shadows|
        invariant forall s :: 0 <= s < |shadows| ==> ReplayedTo(shadows[s], State(), s, w, after[s])
      {
        assert WriteBuilt(State(), writes[w]);
        var slot := writes[w].slot;
        ghost var was := after;
        var bytes := CopyInto(after[slot].bytes.value, writes[w].start, writes[w].Bytes());
        after := after[slot := after[slot].(bytes := Some(bytes))];
        forall s | 0 <= s < |shadows| ensures ReplayedTo(shadows[s], State(), s, w + 1, after[s]) {
          ReplayedStep(shadows[s], State(), s, w, was[s]);
        }
        w := w + 1;
      }
    }

    method AdvanceRevisions(shadows: seq<BufferShadow>, replayed: seq<BufferShadow>) returns (after: seq<BufferShadow>)
      requires Built(shadows, State()) && |replayed| == |shadows|
      requires forall s :: 0 <= s < |shadows| ==> ReplayedTo(shadows[s], State(), s, |writes|, replayed[s])
      ensures after == Published(shadows, State())
    {
      ghost var target := Published(shadows, State());
      ReplayedBytes(shadows, State(), replayed);
      after := replayed;
      var k := 0;
      while k < |updates|
        invariant 0 <= k <= |updates| && |after| == |shadows|
        invariant forall s :: 0 <= s < |shadows| ==>
          after[s] == (if Find(updates, s).Some? && Find(updates, s).value < k then target[s] else replayed[s])
      {
        var slot := updates[k].slot;
        AdvancedSlot(shadows, State(), replayed, k);
        after := after[slot := after[slot].(
          upload := Some(MergedUpload(after[slot], updates[k].upload)), revision := updates[k].revision)];
        k := k + 1;
      }
    }
  }

  /**
   Allocate everything publication will need, before anything is sent.
   Capacity may move; accepted bytes, lengths, revisions and deltas do not,
   even when a later allocation is refused.
   */
  method Reserve(plan: Plan, store: ShadowStore, granted: seq<Option<nat>>)
    returns (result: Result<PreparedPlan, PlanError>)
    requires Built(store.shadows, plan) && store.Valid() && |granted| == |plan.updates|
    modifies store`capacities
    ensures store.Valid() && forall s :: 0 <= s < |store.shadows| ==> old(store.capacities)[s] <= store.capacities[s]
    ensures result.Ok?
      <==> forall k :: 0 <= k < |plan.updates| && old(store.Allocates(plan.updates[k])) ==> granted[k].Some?
    ensures result.Ok? ==> fresh(result.value) && result.value.State() == plan && result.value.Reserved(store)
    ensures result.Err? ==> result.error == OutOfMemory
  {
    var prepared := new PreparedPlan(plan);
    UpdatesInside(store.shadows, plan);
    var k := 0;
    while k < |plan.updates|
      invariant 0 <= k <= |plan.updates| && store.Valid()
      invariant forall s :: 0 <= s < |store.shadows| ==> old(store.capacities)[s] <= store.capacities[s]
      invariant forall j :: k <= j < |plan.updates| ==>
        store.Allocates(plan.updates[j]) == old(store.Allocates(plan.updates[j]))
      invariant forall j :: 0 <= j < k && old(store.Allocates(plan.updates[j])) ==> granted[j].Some?
      invariant forall j :: 0 <= j < k ==> prepared.HasRoom(store, j)
    {
      var made := prepared.ReserveOne(store, k, granted[k]);
      if !made {
        return Err(OutOfMemory);
      }
      k := k + 1;
    }
    return Ok(prepared);
  }

  lemma UpdatesInside(shadows: seq<BufferShadow>, plan: Plan)
    requires Built(shadows, plan)
    ensures forall k :: 0 <= k < |plan.updates| ==> plan.updates[k].slot < |shadows|
    ensures forall j, k :: 0 <= j < |plan.updates| && 0 <= k < |plan.updates| && j != k ==>
      plan.updates[j].slot != plan.updates[k].slot
  {
    forall k | 0 <= k < |plan.updates| ensures plan.updates[k].slot < |shadows| {
      FindUnique(plan.updates, k);
      assert Lookup(plan.updates, plan.updates[k].slot).Some?;
    }
  }

  /** Published contents stay inside storage that has room for every update. */
  lemma PublishedFits(shadows: seq<BufferShadow>, plan: Plan, capacities: seq<nat>)
    requires Built(shadows, plan) && |capacities| == |shadows|
    requires forall s :: 0 <= s < |shadows| ==> |Contents(shadows[s])| <= capacities[s]
    requires forall k :: 0 <= k < |plan.updates| ==>
      plan.updates[k].slot < |shadows| && plan.updates[k].length <= capacities[plan.updates[k].slot]
    ensures forall s :: 0 <= s < |shadows| ==> |Contents(Published(shadows, plan)[s])| <= capacities[s]
  {
    forall s | 0 <= s < |shadows| && Lookup(plan.updates, s).Some?
      ensures |View(shadows[s], plan, s)| <= capacities[s]
    {
      assert UpdateBuilt(shadows[s], plan, Lookup(plan.updates, s).value);
    }
  }

  /** A full replay leaves only the revision and the delta of a touched slot to set. */
  lemma ReplayedBytes(shadows: seq<BufferShadow>, plan: Plan, replayed: seq<BufferShadow>)
    requires Built(shadows, plan) && |replayed| == |shadows|
    requires forall s :: 0 <= s < |shadows| ==> ReplayedTo(shadows[s], plan, s, |plan.writes|, replayed[s])
    ensures forall s :: 0 <= s < |shadows| ==>
      replayed[s] ==
        if Find(plan.updates, s).None? then Published(shadows, plan)[s]
        else shadows[s].(bytes := Published(shadows, plan)[s].bytes)
  {
    forall s | 0 <= s < |shadows|
      ensures replayed[s] ==
        if Find(plan.updates, s).None? then Published(shadows, plan)[s]
        else shadows[s].(bytes := Published(shadows, plan)[s].bytes)
    {
      assert ReplayedTo(shadows[s], plan, s, |plan.writes|, replayed[s]);
      if Lookup(plan.updates, s).Some? {
        ReplayIsView(shadows, plan, s);
      }
    }
  }

  /** The next logged write changes only the slot it names. */
  lemma ReplayedStep(shadow: BufferShadow, plan: Plan, s: nat, w: nat, was: BufferShadow)
    requires w < |plan.writes| && WriteBuilt(plan, plan.writes[w]) && ReplayedTo(shadow, plan, s, w, was)
    ensures plan.writes[w].slot != s ==> ReplayedTo(shadow, plan, s, w + 1, was)
    ensures plan.writes[w].slot == s ==>
      && was.bytes.Some? && plan.writes[w].start + |plan.writes[w].Bytes()| <= |was.bytes.value|
      && ReplayedTo(shadow, plan, s, w + 1,
           was.(bytes := Some(CopyInto(was.bytes.value, plan.writes[w].start, plan.writes[w].Bytes()))))
  {
    if Lookup(plan.updates, s).Some? {
      ReplayStep(shadow, plan, s, Lookup(plan.updates, s).value.length, w);
    }
  }

  /** Setting the revision and the delta of an update completes its slot. */
  lemma AdvancedSlot(shadows: seq<BufferShadow>, plan: Plan, replayed: seq<BufferShadow>, k: nat)
    requires Built(shadows, plan) && |replayed| == |shadows| && k < |plan.updates|
    requires forall s :: 0 <= s < |shadows| ==>
      replayed[s] ==
        if Find(plan.updates, s).None? then Published(shadows, plan)[s]
        else shadows[s].(bytes := Published(shadows, plan)[s].bytes)
    ensures var u := plan.updates[k];
      && u.slot < |shadows| && Find(plan.updates, u.slot) == Some(k)
      && Published(shadows, plan)[u.slot]
        == replayed[u.slot].(upload := Some(MergedUpload(replayed[u.slot], u.upload)), revision := u.revision)
  {
    FindUnique(plan.updates, k);
    assert Lookup(plan.updates, plan.updates[k].slot).Some?;
  }

  /** Slot `slot` after the first `w` logged writes. */
  ghost predicate ReplayedTo(shadow: BufferShadow, plan: Plan, slot: nat, w: nat, after: BufferShadow)
    requires w <= |plan.writes|
  {
    match Lookup(plan.updates, slot)
    case None => after == shadow
    case Some(u) => after == shadow.(bytes := Some(Replay(shadow, plan, slot, u.length, w)))
  }
}
