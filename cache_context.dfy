/**
 * CacheContext: the per-thread "cache reads enabled" switch. One thread's view
 * of the ThreadLocal ENABLE_CACHE, whose initial value is true.
 */
module Context {
  import opened Wrappers

  /** The ThreadLocal operations CacheContext performs. */
  datatype SlotOp = Set(value: bool) | Get | Remove

  /** What ENABLE_CACHE.get() yields: the stored value, or the initial value true while unset. */
  function Observed(slot: Option<bool>): bool {
    slot.GetOr(true)
  }

  /** The slot after one operation; get() on an unset slot stores the initial value. */
  function Step(slot: Option<bool>, op: SlotOp): (r: Option<bool>)
    ensures op.Set? ==> Observed(r) == op.value
    ensures op.Get? ==> Observed(r) == Observed(slot) && r.Some?
    ensures op.Remove? ==> r == None && Observed(r)
  {
    match op
    case Set(b) => Some(b)
    case Get => Some(Observed(slot))
    case Remove => None
  }

  function Replay(slot: Option<bool>, ops: seq<SlotOp>): Option<bool>
    decreases |ops|
  {
    if ops == [] then slot else Replay(Step(slot, ops[0]), ops[1..])
  }

  /** The value of the latest Set that no Remove follows; true when there is none. */
  function LatestSetting(ops: seq<SlotOp>): bool
    decreases |ops|
  {
    if ops == [] then true
    else match ops[|ops| - 1]
      case Set(b) => b
      case Remove => true
      case Get => LatestSetting(ops[..|ops| - 1])
  }

  lemma {:induction false} ReplayAppend(slot: Option<bool>, ops: seq<SlotOp>, op: SlotOp)
    ensures Replay(slot, ops + [op]) == Step(Replay(slot, ops), op)
    decreases |ops|
  {
    if ops != [] {
      assert (ops + [op])[1..] == ops[1..] + [op];
      ReplayAppend(Step(slot, ops[0]), ops[1..], op);
    }
  }

  /**
   * On a thread that starts with no value, isEnabled() after any sequence of
   * calls returns the latest setEnabled argument not undone by clear(), and
   * true if there is none: reads never change it and the latest write wins.
   */
  lemma {:induction false} ReplayFromFresh(ops: seq<SlotOp>)
    ensures Observed(Replay(None, ops)) == LatestSetting(ops)
    decreases |ops|
  {
    if ops != [] {
      var init := ops[..|ops| - 1];
      assert ops == init + [ops[|ops| - 1]];
      ReplayAppend(None, init, ops[|ops| - 1]);
      ReplayFromFresh(init);
    }
  }

  /** Without any setEnabled, isEnabled() is true. */
  lemma {:induction false} NoSetMeansEnabled(ops: seq<SlotOp>)
    requires forall i :: 0 <= i < |ops| ==> !ops[i].Set?
    ensures Observed(Replay(None, ops))
    decreases |ops|
  {
    if ops != [] {
      var init := ops[..|ops| - 1];
      NoSetMeansEnabled(init);
      ReplayFromFresh(init);
    }
    ReplayFromFresh(ops);
  }

  /** Calls to isEnabled() appended to a history do not change the setting it ends with. */
  lemma {:induction false} ReadsKeepSetting(ops: seq<SlotOp>, lookups: seq<SlotOp>)
    requires forall i :: 0 <= i < |lookups| ==> lookups[i].Get?
    ensures LatestSetting(ops + lookups) == LatestSetting(ops)
    decreases |lookups|
  {
    if lookups != [] {
      var init := lookups[..|lookups| - 1];
      var all := ops + lookups;
      assert all[|all| - 1] == lookups[|lookups| - 1];
      assert all[..|all| - 1] == ops + init;
      ReadsKeepSetting(ops, init);
    } else {
      assert ops + lookups == ops;
    }
  }

  /** The ThreadLocal as seen from the current thread. */
  class CacheContext {
    var slot: Option<bool>

    /** A thread on which ENABLE_CACHE has not been touched. */
    constructor ()
      ensures slot == None && Enabled()
    {
      slot := None;
    }

    function Enabled(): bool
      reads this
    {
      Observed(slot)
    }

    method SetEnabled(enabled: bool)
      modifies this
      ensures slot == Step(old(slot), Set(enabled))
      ensures Enabled() == enabled
    {
      slot := Some(enabled);
    }

    method IsEnabled() returns (r: bool)
      modifies this
      ensures r == old(Enabled())
      ensures slot == Step(old(slot), Get)
      ensures Enabled() == old(Enabled())
    {
      if slot.None? {
        slot := Some(true);
      }
      r := slot.value;
    }

    method Clear()
      modifies this
      ensures slot == Step(old(slot), Remove)
      ensures Enabled()
    {
      slot := None;
    }
  }
}
