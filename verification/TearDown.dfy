/**
 Tearing down a loop: every handle still open is closed, and the loop runs until all of them are. Callbacks may
 meanwhile initialise further handles, which nobody closes: idle ones keep the loop from being closed, active ones
 keep it running.
 */
module TearDown {

  /** Which callback a closing handle was given: its owner's, which frees it, or the empty one of the tear-down. */
  datatype Callback = Unset | Owners | Empty

  /** The two ends of `uv_tear_down`, and its having none because the loop goes on running. */
  datatype Outcome = Success | Failure | Running

  /** `starts` are the handles that the owner's callback initialises, `active` whether this one is started too. */
  class Handle {
    const starts: seq<Handle>
    const active: bool
    var closing: bool
    var callback: Callback
    var calls: nat
    var freed: bool

    constructor (starts: seq<Handle>, active: bool)
      ensures !closing && callback == Unset && calls == 0 && !freed
      ensures this.starts == starts && this.active == active
    {
      this.starts, this.active := starts, active;
      closing, callback, calls, freed := false, Unset, 0, false;
    }

    /** Closing handles have a callback that has not run yet. */
    ghost predicate Valid()
      reads this
    {
      calls == 0 && !freed && (closing <==> callback != Unset)
    }

    method Close(cb: Callback)
      requires Valid() && !closing && cb != Unset
      modifies this
      ensures Valid() && closing && callback == cb
    {
      closing, callback := true, cb;
    }

    /** The loop's last word to a closing handle. */
    method Finish() returns (more: seq<Handle>)
      requires Valid() && closing
      modifies this
      ensures calls == 1 && callback == old(callback) && freed == (callback == Owners)
      ensures more == Leaves(this, callback)
    {
      calls := calls + 1;
      more := [];
      if callback == Owners {
        more := starts;
        freed := true;
      }
    }
  }

  /** What the close callback of a handle leaves registered. */
  function Leaves(h: Handle, cb: Callback): seq<Handle> {
    if cb == Owners then h.starts else []
  }

  function LeftBy(hs: seq<Handle>, cbs: seq<Callback>): seq<Handle>
    requires |hs| == |cbs|
  {
    if hs == [] then []
    else LeftBy(hs[..|hs| - 1], cbs[..|hs| - 1]) + Leaves(hs[|hs| - 1], cbs[|hs| - 1])
  }

  lemma {:induction false} LeftByOf(hs: seq<Handle>, cbs: seq<Callback>, x: Handle)
    requires |hs| == |cbs|
    ensures x in LeftBy(hs, cbs) <==> exists i :: 0 <= i < |hs| && cbs[i] == Owners && x in hs[i].starts
  {
    if hs == [] {
    } else {
      var n := |hs| - 1;
      LeftByOf(hs[..n], cbs[..n], x);
      assert forall i | 0 <= i < n :: hs[..n][i] == hs[i] && cbs[..n][i] == cbs[i];
    }
  }

  ghost predicate Distinct(hs: seq<Handle>) {
    forall i, j | 0 <= i < j < |hs| :: hs[i] != hs[j]
  }

  ghost predicate AllValid(hs: seq<Handle>)
    reads hs
  {
    forall i | 0 <= i < |hs| :: hs[i].Valid()
  }

  /** The first `k` of closing handles with callbacks `cbs` have been finished. */
  ghost predicate FinishedUpTo(hs: seq<Handle>, cbs: seq<Callback>, k: nat)
    reads hs
  {
    |cbs| == |hs| && forall i | 0 <= i < |hs| ::
      && hs[i].callback == cbs[i]
      && if i < k then hs[i].calls == 1 && hs[i].freed == (cbs[i] == Owners) else hs[i].Valid() && hs[i].closing
  }

  /** The callbacks of `hs`. */
  ghost function Callbacks(hs: seq<Handle>): (cbs: seq<Callback>)
    reads hs
    ensures |cbs| == |hs| && forall i | 0 <= i < |hs| :: cbs[i] == hs[i].callback
  {
    seq(|hs|, i requires 0 <= i < |hs| reads hs => hs[i].callback)
  }

  method FinishNext(hs: seq<Handle>, ghost cbs: seq<Callback>, k: nat) returns (more: seq<Handle>)
    requires Distinct(hs) && k < |hs| && FinishedUpTo(hs, cbs, k)
    modifies hs[k]
    ensures FinishedUpTo(hs, cbs, k + 1) && more == Leaves(hs[k], cbs[k])
  {
    more := hs[k].Finish();
  }

  class Loop {
    var handles: seq<Handle>

    constructor (handles: seq<Handle>)
      ensures this.handles == handles
    {
      this.handles := handles;
    }

    /** `uv_loop_close` refuses while a handle is registered. */
    method LoopClose() returns (busy: bool)
      ensures busy <==> handles != []
    {
      busy := handles != [];
    }

    /** `uv_walk` with `walk_cb`: closes what is not closing yet, and leaves the others their own callback. */
    method Walk()
      requires Distinct(handles) && AllValid(handles)
      modifies handles
      ensures AllValid(handles)
      ensures forall i | 0 <= i < |handles| :: handles[i].closing
      ensures forall i | 0 <= i < |handles| ::
                handles[i].callback == if old(handles[i].closing) then old(handles[i].callback) else Empty
    {
      var i := 0;
      while i < |handles|
        invariant 0 <= i <= |handles| && AllValid(handles)
        invariant forall j | 0 <= j < i :: handles[j].closing
        invariant forall j | 0 <= j < i ::
                    handles[j].callback == if old(handles[j].closing) then old(handles[j].callback) else Empty
        invariant forall j | i <= j < |handles| ::
                    handles[j].closing == old(handles[j].closing) && handles[j].callback == old(handles[j].callback)
      {
        if !handles[i].closing {
          handles[i].Close(Empty);
        }
        i := i + 1;
      }
    }

    /** `uv_run` on a loop whose handles are all closing: finishes them, oldest first, and returns unless their
        callbacks have left an active handle. */
    method Run() returns (returned: bool)
      requires Distinct(handles) && FinishedUpTo(handles, Callbacks(handles), 0)
      modifies this, handles
      ensures FinishedUpTo(old(handles), old(Callbacks(handles)), |old(handles)|)
      ensures handles == LeftBy(old(handles), old(Callbacks(handles)))
      ensures returned <==> forall h | h in handles :: !h.active
    {
      var all := handles;
      ghost var cbs := Callbacks(handles);
      var late: seq<Handle> := [];
      var k := 0;
      while k < |all|
        invariant k <= |all| && FinishedUpTo(all, cbs, k)
        invariant late == LeftBy(all[..k], cbs[..k])
      {
        assert all[..k + 1][..k] == all[..k] && cbs[..k + 1][..k] == cbs[..k];
        var more := FinishNext(all, cbs, k);
        k, late := k + 1, late + more;
      }
      assert all[..k] == all && cbs[..k] == cbs;
      handles := late;
      returned := AllIdle(late);
    }

    /** `uv_tear_down`: every handle's callback runs exactly once, and the handles freed are those whose owner had begun
        to close them. It succeeds exactly if no such owner's callback leaves a new handle behind, and does not return
        exactly if one of them leaves an active one. */
    method UvTearDown() returns (outcome: Outcome)
      requires Distinct(handles) && AllValid(handles)
      modifies this, handles
      ensures forall i | 0 <= i < |old(handles)| ::
                && old(handles)[i].calls == 1
                && (old(handles)[i].freed <==> old(handles[i].closing && handles[i].callback == Owners))
      ensures forall h :: h in handles <==>
                exists i :: 0 <= i < |old(handles)| && old(handles)[i].freed && h in old(handles)[i].starts
      ensures outcome.Success? <==> handles == []
      ensures outcome.Running? <==> exists h :: h in handles && h.active
    {
      ghost var all := handles;
      var busy := LoopClose();
      if !busy {
        return Success;
      }
      Walk();
      ghost var cbs := Callbacks(handles);
      var returned := Run();
      forall h ensures h in handles <==> exists i :: 0 <= i < |all| && all[i].freed && h in all[i].starts {
        LeftByOf(all, cbs, h);
      }
      if !returned {
        return Running;
      }
      busy := LoopClose();
      outcome := if busy then Failure else Success;
    }
  }

  function AllIdle(hs: seq<Handle>): (idle: bool)
    ensures idle <==> forall h | h in hs :: !h.active
  {
    hs == [] || (!hs[0].active && AllIdle(hs[1..]))
  }
}
