/** What every step of the JavaScriptCore environment keeps. */
module JscLedgerSafety {
  import opened Common
  import opened JscLedger
  import opened JscLedgerBalance

  // ---- the scope stack under the call stack ------------------------------------------------------

  predicate ScopeGood(scopes: seq<Scope>, i: nat)
    requires i < |scopes|
  {
    && (scopes[i].owner.Root? <==> i == 0)
    && (scopes[i].owner.Callback? ==> scopes[i].owner.depth == i)
  }

  /** A callback's own scope is still open, and below it nothing has changed since it was entered. */
  predicate FrameGood(scopes: seq<Scope>, f: Frame) {
    f.InCallback? ==>
      1 <= f.depth < |scopes| && scopes[f.depth].owner == Callback(f.depth) && scopes[..f.depth] == f.lower
  }

  /** The depth of the innermost callback. */
  function Depth(frames: seq<Frame>): nat {
    if frames == [] then 0
    else if frames[|frames| - 1].InCallback? then frames[|frames| - 1].depth
    else Depth(frames[..|frames| - 1])
  }

  /** Callbacks lie deeper the later they were entered. */
  ghost predicate Nested(frames: seq<Frame>)
    decreases |frames|
  {
    frames == [] ||
    var front := frames[..|frames| - 1];
    Nested(front) && (frames[|frames| - 1].InCallback? ==> Depth(front) < frames[|frames| - 1].depth)
  }

  ghost predicate StackGood(scopes: seq<Scope>, frames: seq<Frame>) {
    && |scopes| > 0
    && (forall i: nat {:trigger ScopeGood(scopes, i)} :: i < |scopes| ==> ScopeGood(scopes, i))
    && (forall i: nat {:trigger FrameGood(scopes, frames[i])} :: i < |frames| ==> FrameGood(scopes, frames[i]))
    && Nested(frames)
  }

  lemma {:induction false} DepthBounds(frames: seq<Frame>, i: nat)
    requires Nested(frames) && i < |frames| && frames[i].InCallback?
    ensures frames[i].depth <= Depth(frames)
    decreases |frames|
  {
    if i < |frames| - 1 { DepthBounds(frames[..|frames| - 1], i); }
  }

  lemma {:induction false} DepthOfFrame(frames: seq<Frame>) returns (i: nat)
    requires Depth(frames) > 0
    ensures i < |frames| && frames[i].InCallback? && frames[i].depth == Depth(frames)
    decreases |frames|
  {
    i := |frames| - 1;
    if !frames[i].InCallback? { i := DepthOfFrame(frames[..i]); }
  }

  /** The innermost callback's scope, or the root, is never one the program can close. */
  lemma DepthScope(scopes: seq<Scope>, frames: seq<Frame>)
    requires StackGood(scopes, frames)
    ensures Depth(frames) < |scopes| && !scopes[Depth(frames)].owner.Api?
  {
    if Depth(frames) > 0 {
      var i := DepthOfFrame(frames);
      assert FrameGood(scopes, frames[i]);
    } else {
      assert ScopeGood(scopes, 0);
    }
  }

  /** Changes above the innermost callback's scope disturb no frame. */
  lemma StackChange(scopes: seq<Scope>, frames: seq<Frame>, r: seq<Scope>)
    requires StackGood(scopes, frames)
    requires Depth(frames) < |scopes| && Depth(frames) < |r|
    requires r[..Depth(frames)] == scopes[..Depth(frames)]
    requires r[Depth(frames)].owner == scopes[Depth(frames)].owner
    requires forall i: nat {:trigger ScopeGood(r, i)} :: i < |r| ==> ScopeGood(r, i)
    ensures StackGood(r, frames)
  {
    hide ScopeGood, Nested, Depth;
    var d := Depth(frames);
    forall i: nat | i < |frames|
      ensures FrameGood(r, frames[i])
    {
      assert FrameGood(scopes, frames[i]);
      if frames[i].InCallback? {
        DepthBounds(frames, i);
        var k := frames[i].depth;
        assert r[..k] == r[..d][..k] && scopes[..k] == scopes[..d][..k];
        assert k < d ==> r[k] == r[..d][k] && scopes[k] == scopes[..d][k];
      }
    }
  }

  lemma {:induction false} UnwindExact(e: Env, depth: nat)
    requires 1 <= depth < |e.scopes| && e.scopes[depth].owner == Callback(depth)
    requires forall i: nat {:trigger ScopeGood(e.scopes, i)} :: i < |e.scopes| ==> ScopeGood(e.scopes, i)
    ensures Unwind(e, depth).scopes == e.scopes[..depth]
    decreases |e.scopes|
  {
    var n := |e.scopes| - 1;
    assert ScopeGood(e.scopes, n);
    if depth < n {
      forall i: nat | i < n ensures ScopeGood(e.scopes[..n], i) {
        assert ScopeGood(e.scopes, i);
      }
      UnwindExact(PopScope(e), depth);
      assert e.scopes[..n][..depth] == e.scopes[..depth];
    }
  }

  lemma TopChange(e: Env, top: Scope)
    requires StackGood(e.scopes, e.frames)
    requires top.owner == e.scopes[|e.scopes| - 1].owner
    ensures StackGood(e.scopes[|e.scopes| - 1 := top], e.frames)
  {
    hide Nested, Depth;
    var r := e.scopes[|e.scopes| - 1 := top];
    DepthScope(e.scopes, e.frames);
    forall i: nat | i < |r| ensures ScopeGood(r, i) {
      assert ScopeGood(e.scopes, i);
    }
    StackChange(e.scopes, e.frames, r);
  }

  lemma PushStack(e: Env, v: Val)
    requires StackGood(e.scopes, e.frames)
    ensures StackGood(Push(e, v).scopes, e.frames) && Push(e, v).frames == e.frames
  {
    hide StackGood;
    assert |e.scopes| > 0 by { NonEmpty(e); }
    var n := |e.scopes| - 1;
    TopChange(e, e.scopes[n].(handles := e.scopes[n].handles + [v]));
  }

  lemma NonEmpty(e: Env)
    requires StackGood(e.scopes, e.frames)
    ensures |e.scopes| > 0
  {
  }

  lemma OpenStack(e: Env, s: Scope)
    requires StackGood(e.scopes, e.frames) && s.owner.Api?
    ensures StackGood(e.scopes + [s], e.frames)
  {
    hide Nested, Depth;
    var r := e.scopes + [s];
    DepthScope(e.scopes, e.frames);
    forall i: nat | i < |r| ensures ScopeGood(r, i) {
      if i < |e.scopes| { assert ScopeGood(e.scopes, i); }
    }
    StackChange(e.scopes, e.frames, r);
  }

  lemma CloseStack(e: Env)
    requires StackGood(e.scopes, e.frames) && e.scopes[|e.scopes| - 1].owner.Api?
    ensures StackGood(e.scopes[..|e.scopes| - 1], e.frames)
  {
    hide Nested, Depth;
    var r := e.scopes[..|e.scopes| - 1];
    DepthScope(e.scopes, e.frames);
    forall i: nat | i < |r| ensures ScopeGood(r, i) {
      assert ScopeGood(e.scopes, i);
    }
    StackChange(e.scopes, e.frames, r);
  }

  lemma EscapeStack(e: Env, id: nat, v: Val)
    requires StackGood(e.scopes, e.frames)
    ensures StackGood(DoEscape(e, id, v).scopes, e.frames) && DoEscape(e, id, v).frames == e.frames
  {
    hide Nested, Depth;
    var n := |e.scopes| - 1;
    var r := DoEscape(e, id, v).scopes;
    DepthScope(e.scopes, e.frames);
    forall i: nat | i < |r| ensures ScopeGood(r, i) {
      assert ScopeGood(e.scopes, i);
    }
    StackChange(e.scopes, e.frames, r);
  }

  lemma PushFrameStack(e: Env, f: Frame)
    requires StackGood(e.scopes, e.frames) && !f.InCallback?
    ensures StackGood(e.scopes, e.frames + [f])
  {
    hide ScopeGood, Depth;
    var r := e.frames + [f];
    assert r[..|r| - 1] == e.frames;
    forall i: nat | i < |r| ensures FrameGood(e.scopes, r[i]) {
      if i < |e.frames| { assert FrameGood(e.scopes, e.frames[i]); }
    }
  }

  lemma PopFrameStack(e: Env)
    requires StackGood(e.scopes, e.frames) && e.frames != []
    ensures StackGood(e.scopes, e.frames[..|e.frames| - 1])
  {
    hide ScopeGood, Depth;
    var r := e.frames[..|e.frames| - 1];
    forall i: nat | i < |r| ensures FrameGood(e.scopes, r[i]) {
      assert FrameGood(e.scopes, e.frames[i]);
    }
  }

  lemma EnterStack(e: Env)
    requires StackGood(e.scopes, e.frames)
    ensures StackGood(DoEnterCallback(e).scopes, DoEnterCallback(e).frames)
  {
    hide Depth;
    var n := |e.scopes|;
    var s, fs := DoEnterCallback(e).scopes, DoEnterCallback(e).frames;
    DepthScope(e.scopes, e.frames);
    assert fs[..|fs| - 1] == e.frames;
    forall i: nat | i < |s| ensures ScopeGood(s, i) {
      if i < n { assert ScopeGood(e.scopes, i); }
    }
    forall i: nat | i < |fs| ensures FrameGood(s, fs[i]) {
      if i < |e.frames| {
        assert FrameGood(e.scopes, e.frames[i]);
        if e.frames[i].InCallback? { assert s[..e.frames[i].depth] == e.scopes[..e.frames[i].depth]; }
      } else {
        assert s[..n] == e.scopes;
      }
    }
  }

  /** Leaving a callback gives back exactly the scopes there were when it was entered. */
  lemma LeaveExact(e: Env)
    requires StackGood(e.scopes, e.frames) && Enabled(e, LeaveCallback)
    ensures DoLeaveCallback(e).scopes == Top(e).value.lower
    ensures DoLeaveCallback(e).frames == e.frames[..|e.frames| - 1]
  {
    hide Unwind;
    assert FrameGood(e.scopes, e.frames[|e.frames| - 1]);
    UnwindExact(PopFrame(e), Top(e).value.depth);
  }

  lemma LeaveStack(e: Env)
    requires StackGood(e.scopes, e.frames) && Enabled(e, LeaveCallback)
    ensures StackGood(DoLeaveCallback(e).scopes, DoLeaveCallback(e).frames)
  {
    hide Unwind, DoLeaveCallback, Depth;
    LeaveExact(e);
    var last := e.frames[|e.frames| - 1];
    assert FrameGood(e.scopes, last);
    var front := e.frames[..|e.frames| - 1];
    var r := e.scopes[..last.depth];
    forall i: nat | i < |r| ensures ScopeGood(r, i) {
      assert ScopeGood(e.scopes, i);
    }
    forall i: nat | i < |front| ensures FrameGood(r, front[i]) {
      assert FrameGood(e.scopes, e.frames[i]);
      if front[i].InCallback? {
        DepthBounds(front, i);
        assert r[..front[i].depth] == e.scopes[..front[i].depth];
      }
    }
  }

  // ---- references and holders --------------------------------------------------------------------

  /** A weak reference is on a holder of its target, and reads empty exactly when that holder was collected. */
  predicate RefGood(e: Env, i: nat)
    requires i < |e.refs|
  {
    e.refs[i].weakable ==>
      && e.refs[i].holder < |e.holders|
      && e.holders[e.refs[i].holder].anchor == e.refs[i].value
      && (e.refs[i].alive <==> !e.holders[e.refs[i].holder].collected)
      && (e.refs[i].alive ==> e.holders[e.refs[i].holder].attached)
  }

  ghost predicate RefsGood(e: Env) {
    forall i: nat {:trigger RefGood(e, i)} :: i < |e.refs| ==> RefGood(e, i)
  }

  /** A queued holder was collected; posted entries are numbered. */
  predicate EntryGood(e: Env, i: nat)
    requires i < |e.enqueued|
  {
    match e.enqueued[i]
    case OfHolder(h) => h < |e.holders| && e.holders[h].collected
    case Posted(id) => id < e.posted
  }

  /** The finalizers started and those waiting are, in order, all that were queued, and none was queued twice. */
  ghost predicate QueueGood(e: Env) {
    && e.ran + e.queue == e.enqueued && NoDup(e.enqueued)
    && (forall i: nat {:trigger EntryGood(e, i)} :: i < |e.enqueued| ==> EntryGood(e, i))
  }

  predicate SettleGood(e: Env, i: nat)
    requires i < |e.frames|
  {
    e.frames[i].Settling? ==> e.frames[i].d < |e.deferreds| && e.deferreds[e.frames[i].d].state == InProgress
  }

  predicate SettleApart(e: Env, i: nat, j: nat)
    requires i < j < |e.frames|
  {
    e.frames[i].Settling? && e.frames[j].Settling? ==> e.frames[i].d != e.frames[j].d
  }

  ghost predicate SettlesGood(e: Env) {
    && (forall i: nat {:trigger SettleGood(e, i)} :: i < |e.frames| ==> SettleGood(e, i))
    && (forall i: nat, j: nat {:trigger SettleApart(e, i, j)} :: i < j < |e.frames| ==> SettleApart(e, i, j))
  }

  /** All but the ledger. */
  ghost predicate Shape(e: Env) {
    StackGood(e.scopes, e.frames) && RefsGood(e) && QueueGood(e) && SettlesGood(e)
  }

  ghost predicate Inv(e: Env) { Shape(e) && Covered(e) }

  lemma RefsAppend(e: Env, r: Env)
    requires RefsGood(e) && |r.refs| >= |e.refs| && r.refs[..|e.refs|] == e.refs
    requires |r.holders| >= |e.holders| && r.holders[..|e.holders|] == e.holders
    requires forall i: nat {:trigger RefGood(r, i)} :: |e.refs| <= i < |r.refs| ==> RefGood(r, i)
    ensures RefsGood(r)
  {
    forall i: nat | i < |r.refs| ensures RefGood(r, i) {
      if i < |e.refs| {
        assert RefGood(e, i);
        assert r.refs[i] == r.refs[..|e.refs|][i];
        if e.refs[i].weakable {
          var h := e.refs[i].holder;
          assert r.holders[h] == r.holders[..|e.holders|][h];
        }
      }
    }
  }

  lemma PutRefGood(e: Env, r: nat, ref: Ref)
    requires RefsGood(e) && r < |e.refs|
    requires ref.value == e.refs[r].value && ref.weakable == e.refs[r].weakable
    requires ref.holder == e.refs[r].holder && ref.alive == e.refs[r].alive
    ensures RefsGood(PutRef(e, r, ref))
  {
    forall i: nat | i < |e.refs| ensures RefGood(PutRef(e, r, ref), i) {
      assert RefGood(e, i);
    }
  }

  /** Only the listed fields matter for references. */
  lemma RefsSame(e: Env, r: Env)
    requires RefsGood(e) && r.refs == e.refs && r.holders == e.holders
    ensures RefsGood(r)
  {
    forall i: nat | i < |r.refs| ensures RefGood(r, i) {
      assert RefGood(e, i);
    }
  }

  lemma CollectRefs(e: Env, h: nat)
    requires RefsGood(e) && h < |e.holders|
    ensures RefsGood(DoCollect(e, h))
  {
    forall i: nat | i < |e.refs| ensures RefGood(DoCollect(e, h), i) {
      assert RefGood(e, i);
    }
  }

  lemma RemoveWrapRefs(e: Env, v: Val)
    requires RefsGood(e)
    ensures RefsGood(DoRemoveWrap(e, v))
  {
    hide WrapHolder, FindWrap;
    forall i: nat | i < |e.refs| ensures RefGood(DoRemoveWrap(e, v), i) {
      assert RefGood(e, i);
    }
  }

  lemma MakeReferenceRefs(e: Env, v: Val, isObject: bool, count: uint32, landed: bool)
    requires RefsGood(e)
    ensures RefsGood(MakeReference(e, v, isObject, count, landed))
  {
    hide FindWrap;
    var r := MakeReference(e, v, isObject, count, landed);
    assert r.refs[..|e.refs|] == e.refs && r.holders[..|e.holders|] == e.holders;
    RefsAppend(e, r);
  }

  lemma AttachRefs(e: Env, h: Holder, wantsRef: bool)
    requires RefsGood(e) && h.attached && !h.collected
    ensures RefsGood(Attach(e, h, wantsRef))
  {
    var r := Attach(e, h, wantsRef);
    assert r.refs[..|e.refs|] == e.refs && r.holders[..|e.holders|] == e.holders;
    RefsAppend(e, r);
  }

  // ---- the queue ---------------------------------------------------------------------------------

  lemma CollectQueue(e: Env, h: nat)
    requires QueueGood(e) && h < |e.holders| && !e.holders[h].collected
    ensures QueueGood(DoCollect(e, h))
  {
    hide KillAll;
    var r := DoCollect(e, h);
    forall i: nat | i < |r.enqueued| ensures EntryGood(r, i) {
      if i < |e.enqueued| { assert EntryGood(e, i); }
    }
    forall i | 0 <= i < |e.enqueued| ensures e.enqueued[i] != OfHolder(h) {
      assert EntryGood(e, i);
    }
    assert e.ran + (e.queue + [OfHolder(h)]) == e.ran + e.queue + [OfHolder(h)];
  }

  lemma PostQueue(e: Env)
    requires QueueGood(e)
    ensures QueueGood(DoPost(e))
  {
    var r := DoPost(e);
    forall i: nat | i < |r.enqueued| ensures EntryGood(r, i) {
      if i < |e.enqueued| { assert EntryGood(e, i); }
    }
    forall i | 0 <= i < |e.enqueued| ensures e.enqueued[i] != Posted(e.posted) {
      assert EntryGood(e, i);
    }
    assert e.ran + (e.queue + [Posted(e.posted)]) == e.ran + e.queue + [Posted(e.posted)];
  }

  lemma NextQueue(e: Env)
    requires QueueGood(e) && e.queue != []
    ensures QueueGood(DoNextFinalizer(e))
  {
    var r := DoNextFinalizer(e);
    assert e.queue == [e.queue[0]] + e.queue[1..];
    assert r.ran + r.queue == e.ran + e.queue;
    forall i: nat | i < |r.enqueued| ensures EntryGood(r, i) {
      assert EntryGood(e, i);
    }
  }

  /** Holders stay collected. */
  ghost predicate HoldersGrow(e: Env, r: Env) {
    && |e.holders| <= |r.holders|
    && forall h | 0 <= h < |e.holders| :: e.holders[h].collected ==> r.holders[h].collected
  }

  lemma QueueSame(e: Env, r: Env)
    requires QueueGood(e) && HoldersGrow(e, r)
    requires r.ran == e.ran && r.queue == e.queue && r.enqueued == e.enqueued && r.posted == e.posted
    ensures QueueGood(r)
  {
    forall i: nat | i < |r.enqueued| ensures EntryGood(r, i) {
      assert EntryGood(e, i);
    }
  }

  // ---- promises ----------------------------------------------------------------------------------

  lemma SettlesSame(e: Env, r: Env)
    requires SettlesGood(e) && r.frames == e.frames
    requires |r.deferreds| >= |e.deferreds| && r.deferreds[..|e.deferreds|] == e.deferreds
    ensures SettlesGood(r)
  {
    forall i: nat | i < |r.frames| ensures SettleGood(r, i) {
      assert SettleGood(e, i);
      if r.frames[i].Settling? {
        assert r.deferreds[..|e.deferreds|][r.frames[i].d] == e.deferreds[r.frames[i].d];
      }
    }
    forall i: nat, j: nat | i < j < |r.frames| ensures SettleApart(r, i, j) {
      assert SettleApart(e, i, j);
    }
  }

  lemma SettlesPush(e: Env, r: Env, f: Frame)
    requires SettlesGood(e) && r.frames == e.frames + [f] && !f.Settling? && r.deferreds == e.deferreds
    ensures SettlesGood(r)
  {
    forall i: nat | i < |r.frames| ensures SettleGood(r, i) {
      if i < |e.frames| { assert SettleGood(e, i); }
    }
    forall i: nat, j: nat | i < j < |r.frames| ensures SettleApart(r, i, j) {
      if j < |e.frames| { assert SettleApart(e, i, j); }
    }
  }

  lemma SettlesPop(e: Env, r: Env)
    requires SettlesGood(e) && e.frames != [] && r.frames == e.frames[..|e.frames| - 1] && r.deferreds == e.deferreds
    ensures SettlesGood(r)
  {
    forall i: nat | i < |r.frames| ensures SettleGood(r, i) {
      assert SettleGood(e, i);
    }
    forall i: nat, j: nat | i < j < |r.frames| ensures SettleApart(r, i, j) {
      assert SettleApart(e, i, j);
    }
  }

  lemma SettlesBegin(e: Env, d: nat)
    requires SettlesGood(e) && d < |e.deferreds| && e.deferreds[d].state == Open
    ensures SettlesGood(DoSettle(e, d))
  {
    var r := DoSettle(e, d);
    forall i: nat | i < |r.frames| ensures SettleGood(r, i) {
      if i < |e.frames| { assert SettleGood(e, i); }
    }
    forall i: nat, j: nat | i < j < |r.frames| ensures SettleApart(r, i, j) {
      assert SettleGood(e, i);
      if j < |e.frames| { assert SettleApart(e, i, j); }
    }
  }

  lemma SettlesEnd(e: Env, threw: Option<Val>)
    requires SettlesGood(e) && CanStep(e) && Enabled(e, JsReturns(threw))
    ensures SettlesGood(DoJsReturns(e, threw))
  {
    hide DoJsReturns, SettlesGood;
    JsReturnsEffect(e, threw);
    SettledApart(e, DoJsReturns(e, threw));
  }

  lemma JsReturnsEffect(e: Env, threw: Option<Val>)
    requires CanStep(e) && Enabled(e, JsReturns(threw))
    ensures var r := DoJsReturns(e, threw);
      && e.frames != [] && r.frames == e.frames[..|e.frames| - 1]
      && (if Top(e).value.Settling? then r.deferreds == e.deferreds[Top(e).value.d := r.deferreds[Top(e).value.d]]
          else r.deferreds == e.deferreds)
  {
    hide Record;
  }

  /** The innermost frame goes, and nothing but the promise it was settling changes. */
  lemma SettledApart(e: Env, r: Env)
    requires SettlesGood(e) && e.frames != [] && r.frames == e.frames[..|e.frames| - 1]
    requires |r.deferreds| == |e.deferreds|
    requires forall d | 0 <= d < |e.deferreds| :: Top(e) == Some(Settling(d)) || r.deferreds[d] == e.deferreds[d]
    ensures SettlesGood(r)
  {
    var n := |e.frames| - 1;
    forall i: nat | i < n ensures SettleGood(r, i) {
      assert SettleGood(e, i) && SettleApart(e, i, n);
    }
    forall i: nat, j: nat | i < j < n ensures SettleApart(r, i, j) {
      assert SettleApart(e, i, j);
    }
  }

  // ---- one step ----------------------------------------------------------------------------------

  lemma ShapeReady(e: Env, s: Step)
    requires Inv(e)
    ensures Ready(e, s)
  {
    hide StackGood, QueueGood, RefsGood, Covered, KillAll, Kill, Holds;
    NonEmpty(e);
    if e.frames != [] { assert SettleGood(e, |e.frames| - 1); }
    if s.Collect? && Enabled(e, s) { CollectReady(e, s.h); }
  }

  /** The collector takes no holder through which something is protected. */
  lemma CollectReady(e: Env, h: nat)
    requires Inv(e) && Enabled(e, Step.Collect(h))
    ensures forall i | 0 <= i < |e.refs| :: Holds(Kill(e.refs[i], h)) == Holds(e.refs[i])
  {
    hide StackGood, QueueGood, SettlesGood, Owes, KillAll;
    forall i | 0 <= i < |e.refs| ensures Holds(Kill(e.refs[i], h)) == Holds(e.refs[i]) {
      assert RefGood(e, i);
      var v := e.refs[i].value;
      PutRefOwes(e, i, e.refs[i], v);
      assert e.protects[v] >= Owes(e, v);
    }
  }

  lemma ScopeStepShape(e: Env, s: Step)
    requires Shape(e) && CanStep(e) && ScopeStep(s) && Enabled(e, s)
    ensures Shape(Exec(e, s))
  {
    hide StackGood, RefsGood, QueueGood, SettlesGood, Push, DoEscape, Unwind, Record, DoTakeException, DoLeaveCallback,
      DoEnterCallback, PopScope;
    var r := Exec(e, s);
    ScopeStepFields(e, s);
    RefsSame(e, r);
    QueueSame(e, r);
    match s {
      case AddHandle(x) => PushStack(e, x);
      case OpenScope(escapable) => OpenStack(e, Scope(Api(e.nextScope), escapable, false, []));
      case CloseScope(id) => CloseScopeStack(e, id);
      case Escape(id, x) => EscapeStack(e, id, x);
      case Throw(x) => RecordFields(e, x);
      case TakeException => TakeStack(e);
      case GetValue(g) => if Reads(e.refs[g]).Some? { PushStack(e, Reads(e.refs[g]).value); }
      case EnterCallback => EnterStack(e);
      case LeaveCallback => LeaveStack(e);
      case CreateBuffer(x, finalizer) => PushStack(e, x);
    }
    if s.EnterCallback? {
      SettlesPush(e, r, InCallback(|e.scopes|, e.scopes));
    } else if s.LeaveCallback? {
      SettlesPop(e, r);
    } else {
      SettlesSame(e, r);
    }
  }

  lemma TakeStack(e: Env)
    requires StackGood(e.scopes, e.frames) && |e.scopes| > 0
    ensures StackGood(DoTakeException(e).scopes, DoTakeException(e).frames)
  {
    hide StackGood;
    PushStack(e, if e.pending.Some? then e.pending.value else UNDEFINED);
  }

  lemma RecordFields(e: Env, x: Val)
    ensures Record(e, x).scopes == e.scopes && Record(e, x).frames == e.frames
  {
  }

  lemma CloseScopeStack(e: Env, id: nat)
    requires StackGood(e.scopes, e.frames) && |e.scopes| > 0
    ensures StackGood(DoCloseScope(e, id).scopes, DoCloseScope(e, id).frames)
  {
    hide StackGood;
    if |e.scopes| > 1 && IsTop(e, Api(id)) { CloseStack(e); }
  }

  lemma ScopeStepFields(e: Env, s: Step)
    requires CanStep(e) && ScopeStep(s) && Enabled(e, s)
    ensures var r := Exec(e, s);
      && r.refs == e.refs && r.holders == e.holders && r.deferreds == e.deferreds
      && r.inGc == e.inGc && r.queue == e.queue && r.ran == e.ran && r.enqueued == e.enqueued && r.posted == e.posted
      && r.frames == (if s.EnterCallback? then e.frames + [InCallback(|e.scopes|, e.scopes)]
                      else if s.LeaveCallback? && e.frames != [] then e.frames[..|e.frames| - 1] else e.frames)
  {
    hide Unwind, Push, DoEscape, Record, DoTakeException, DoCloseScope, DoOpenScope, IsTop, DoLeaveCallback, ExecRef,
      ExecFrame;
    assert Exec(e, s) == ExecScope(e, s);
    if s.LeaveCallback? { LeaveFrames(e); }
  }

  lemma LeaveFrames(e: Env)
    requires CanStep(e) && Enabled(e, LeaveCallback)
    ensures DoLeaveCallback(e).frames == e.frames[..|e.frames| - 1]
  {
    hide Unwind;
  }

  lemma RefStepShape(e: Env, s: Step)
    requires Shape(e) && CanStep(e) && RefStep(s) && Enabled(e, s)
    ensures Shape(Exec(e, s))
  {
    hide StackGood, RefsGood, QueueGood, SettlesGood, MakeReference, Attach, DoRemoveWrap, DoCollect, DoDeleteRef,
      DoStrengthen, DoWeaken, DoCreateExternal, WrapHolder, HoldersGrow, Push, Enabled, DoPost;
    RefEnabled(e, s);
    var r := Exec(e, s);
    RefStepFields(e, s);
    SettlesSame(e, r);
    RefStepRefs(e, s);
    if s.CreateExternal? { ExternalStack(e, s); }
    if s.Collect? {
      CollectQueue(e, s.h);
    } else if s.PostFinalizer? {
      PostQueue(e);
    } else if s.FreeBuffer? {
      QueueSame(e, e.(buffers := e.buffers[s.b := true])) by { GrowRefl(e, e.(buffers := e.buffers[s.b := true])); }
      PostQueue(e.(buffers := e.buffers[s.b := true]));
    } else {
      RefStepHolders(e, s);
      QueueSame(e, r);
    }
  }

  lemma ExternalStack(e: Env, s: Step)
    requires StackGood(e.scopes, e.frames) && |e.scopes| > 0 && s.CreateExternal?
    ensures var r := DoCreateExternal(e, s.v, s.data, s.finalizer); StackGood(r.scopes, r.frames)
  {
    hide StackGood;
    PushStack(NewHolder(e, Holder(s.v, true, false, s.data, s.finalizer, false, false)), s.v);
  }

  lemma RefStepFields(e: Env, s: Step)
    requires CanStep(e) && RefStep(s) && Enabled(e, s)
    ensures var r := Exec(e, s);
      && r.deferreds == e.deferreds && r.deferreds[..|e.deferreds|] == e.deferreds && r.frames == e.frames
      && (!s.CreateExternal? ==> r.scopes == e.scopes)
      && (!s.Collect? && !s.PostFinalizer? && !s.FreeBuffer? ==>
            r.queue == e.queue && r.ran == e.ran && r.enqueued == e.enqueued && r.posted == e.posted)
  {
    hide WrapHolder, Backs, KillAll, Holds, MakeReference, Attach, DoRemoveWrap, DoCollect, DoDeleteRef, DoStrengthen,
      DoWeaken, DoCreateExternal, Enabled, DoPost, ExecScope, ExecFrame, CanStep;
    RefEnabled(e, s);
    assert Exec(e, s) == ExecRef(e, s);
  }

  /** A step that makes a reference or a holder leaves the holders that are there as they are. */
  lemma MakeStepHolders(e: Env, s: Step)
    requires CanStep(e) && MakeStep(s) && Enabled(e, s)
    ensures var r := Exec(e, s);
      && |e.holders| <= |r.holders| && (forall h | 0 <= h < |e.holders| :: r.holders[h] == e.holders[h])
      && (forall h | |e.holders| <= h < |r.holders| :: !r.holders[h].collected)
      && r.queue == e.queue && r.enqueued == e.enqueued && r.ran == e.ran && r.posted == e.posted
      && r.inGc == e.inGc && r.frames == e.frames
  {
    hide WrapHolder, Holds, Push, Enabled, MakeReference, Attach, DoCreateExternal;
    var r := Exec(e, s);
    assert r.holders[..|e.holders|] == e.holders;
    assert forall h | 0 <= h < |e.holders| :: r.holders[h] == r.holders[..|e.holders|][h];
  }

  lemma RefStepHolders(e: Env, s: Step)
    requires CanStep(e) && RefStep(s) && Enabled(e, s) && !s.Collect?
    ensures HoldersGrow(e, Exec(e, s))
  {
    hide WrapHolder, Backs, Holds, DoDeleteRef, DoStrengthen, DoWeaken, Push, Enabled, DoPost, MakeReference, Attach,
      DoCreateExternal;
    if MakeStep(s) {
      hide Exec;
      MakeStepHolders(e, s);
    } else {
      RefEnabled(e, s);
    }
  }

  lemma RefStepRefs(e: Env, s: Step)
    requires RefsGood(e) && CanStep(e) && RefStep(s) && Enabled(e, s)
    ensures RefsGood(Exec(e, s))
  {
    hide Exec, Enabled;
    if MakeStep(s) {
      MakeStepRefs(e, s);
    } else {
      ChangeStepRefs(e, s);
    }
  }

  lemma MakeStepRefs(e: Env, s: Step)
    requires RefsGood(e) && CanStep(e) && MakeStep(s) && Enabled(e, s)
    ensures RefsGood(Exec(e, s))
  {
    hide RefsGood, MakeReference, Attach, DoRemoveWrap, DoCollect, WrapHolder, Enabled, DoPost, DoCreateExternal,
      DoDeleteRef, DoStrengthen, DoWeaken;
    RefEnabled(e, s);
    match s
    case CreateReference(v, isObject, count, landed) => MakeReferenceRefs(e, v, isObject, count, landed);
    case Wrap(v, data, finalizer, wantsRef) =>
      AttachRefs(e, Holder(v, true, true, data, finalizer, e.experimental, false), wantsRef);
    case AddFinalizer(v, wantsRef) => AttachRefs(e, Holder(v, true, false, 0, true, e.experimental, false), wantsRef);
    case CreateExternal(v, data, finalizer) => ExternalRefs(e, v, data, finalizer);
  }

  lemma ChangeStepRefs(e: Env, s: Step)
    requires RefsGood(e) && CanStep(e) && RefStep(s) && !MakeStep(s) && Enabled(e, s)
    ensures RefsGood(Exec(e, s))
  {
    hide RefsGood, MakeReference, Attach, DoRemoveWrap, DoCollect, WrapHolder, Enabled, DoPost, DoCreateExternal,
      DoDeleteRef, DoStrengthen, DoWeaken;
    RefEnabled(e, s);
    match s
    case RemoveWrap(v) => RemoveWrapRefs(e, v);
    case DeleteRef(r) => CountRefs(e, r);
    case Strengthen(r) => CountRefs(e, r);
    case Weaken(r) => CountRefs(e, r);
    case Collect(h) => CollectRefs(e, h);
    case PostFinalizer(hasCallback) => RefsSame(e, Exec(e, s));
    case FreeBuffer(b) => RefsSame(e, Exec(e, s));
  }

  lemma CountRefs(e: Env, r: nat)
    requires RefsGood(e) && r < |e.refs|
    ensures RefsGood(DoDeleteRef(e, r)) && RefsGood(DoStrengthen(e, r)) && RefsGood(DoWeaken(e, r))
  {
    hide RefsGood, Holds;
    var x := e.refs[r];
    PutRefGood(e, r, x.(deleted := true));
    RefsSame(PutRef(e, r, x.(deleted := true)), DoDeleteRef(e, r));
    PutRefGood(e, r, x.(count := (x.count + 1) % 0x1_0000_0000));
    RefsSame(PutRef(e, r, x.(count := (x.count + 1) % 0x1_0000_0000)), DoStrengthen(e, r));
    if x.count > 0 {
      PutRefGood(e, r, x.(count := x.count - 1));
      RefsSame(PutRef(e, r, x.(count := x.count - 1)), DoWeaken(e, r));
    }
  }

  lemma ExternalRefs(e: Env, v: Val, data: nat, finalizer: bool)
    requires RefsGood(e) && |e.scopes| > 0
    ensures RefsGood(DoCreateExternal(e, v, data, finalizer))
  {
    var r := DoCreateExternal(e, v, data, finalizer);
    assert r.holders[..|e.holders|] == e.holders && r.refs[..|e.refs|] == e.refs;
    RefsAppend(e, r);
  }

  lemma FrameStepShape(e: Env, s: Step)
    requires Shape(e) && CanStep(e) && !ScopeStep(s) && !RefStep(s) && Enabled(e, s)
    ensures Shape(Exec(e, s))
  {
    hide StackGood, RefsGood, QueueGood, SettlesGood, DoCreatePromise, DoSettle, DoJsReturns, DoNextFinalizer,
      DoFinalizerReturns, DoSurfaced, HoldersGrow;
    var r := Exec(e, s);
    FrameStepFields(e, s);
    RefsSame(e, r);
    FrameStepStack(e, s);
    if s.NextFinalizer? {
      NextQueue(e);
    } else {
      GrowRefl(e, r);
      QueueSame(e, r);
    }
    FrameStepSettles(e, s);
  }

  lemma GrowRefl(e: Env, r: Env)
    requires e.holders == r.holders
    ensures HoldersGrow(e, r)
  {
  }

  lemma FrameStepFields(e: Env, s: Step)
    requires CanStep(e) && !ScopeStep(s) && !RefStep(s) && Enabled(e, s)
    ensures var r := Exec(e, s);
      && r.refs == e.refs && r.holders == e.holders
      && (!s.CreatePromise? ==> r.scopes == e.scopes)
      && (!s.NextFinalizer? ==> r.queue == e.queue && r.ran == e.ran && r.enqueued == e.enqueued && r.posted == e.posted)
  {
    hide DoCreatePromise, DoSettle, DoJsReturns, DoNextFinalizer, DoFinalizerReturns, DoSurfaced, ExecScope, ExecRef;
    assert Exec(e, s) == ExecFrame(e, s);
  }

  lemma FrameStepStack(e: Env, s: Step)
    requires StackGood(e.scopes, e.frames) && CanStep(e) && !ScopeStep(s) && !RefStep(s) && Enabled(e, s)
    ensures StackGood(Exec(e, s).scopes, Exec(e, s).frames)
  {
    hide StackGood;
    match s
    case CreatePromise(resolve, reject, promise) =>
      PushStack(e.(protects := e.protects + multiset{resolve} + multiset{reject},
                   deferreds := e.deferreds + [Deferred(resolve, reject, Open)]), promise);
    case Settle(d) => PushFrameStack(e, Settling(d));
    case CallJs => PushFrameStack(e, InJs);
    case QueryJs => PushFrameStack(e, InQuery);
    case BuildFactory(x) =>
    case JsReturns(threw) => PopFrameStack(e);
    case Drain => PushFrameStack(e, InDrain);
    case NextFinalizer => PushFrameStack(e, InFinalizer(e.queue[0]));
    case FinalizerReturns =>
      PopFrameStack(e);
      if e.pending.Some? { PushFrameStack(PopFrame(e), Surfacing(e.pending.value)); }
    case Surfaced => PopFrameStack(e);
    case DrainEnds => PopFrameStack(e);
  }

  lemma FrameStepSettles(e: Env, s: Step)
    requires SettlesGood(e) && CanStep(e) && !ScopeStep(s) && !RefStep(s) && Enabled(e, s)
    ensures SettlesGood(Exec(e, s))
  {
    hide SettlesGood, DoJsReturns;
    var r := Exec(e, s);
    match s
    case CreatePromise(resolve, reject, promise) =>
      assert r.deferreds[..|e.deferreds|] == e.deferreds;
      SettlesSame(e, r);
    case Settle(d) => SettlesBegin(e, d);
    case CallJs => SettlesPush(e, r, InJs);
    case QueryJs => SettlesPush(e, r, InQuery);
    case BuildFactory(x) => SettlesSame(e, r);
    case JsReturns(threw) => SettlesEnd(e, threw);
    case Drain => SettlesPush(e, r, InDrain);
    case NextFinalizer => SettlesPush(e, r, InFinalizer(e.queue[0]));
    case FinalizerReturns =>
      SettlesPop(e, PopFrame(e));
      if e.pending.Some? { SettlesPush(PopFrame(e), r, Surfacing(e.pending.value)); } else { SettlesSame(PopFrame(e), r); }
    case Surfaced => SettlesPop(e, r);
    case DrainEnds => SettlesPop(e, r);
  }

  lemma ExecShape(e: Env, s: Step)
    requires Shape(e) && CanStep(e) && Enabled(e, s)
    ensures Shape(Exec(e, s))
  {
    hide Shape, Exec;
    if ScopeStep(s) {
      ScopeStepShape(e, s);
    } else if RefStep(s) {
      RefStepShape(e, s);
    } else {
      FrameStepShape(e, s);
    }
  }

  lemma AbortedShape(e: Env)
    requires Shape(e)
    ensures Shape(e.(aborted := true))
  {
    var r := e.(aborted := true);
    RefsSame(e, r);
    QueueSame(e, r);
    SettlesSame(e, r);
  }

  /** Every step keeps the shape and every owner's protect. The ledger is balanced after it exactly if it was before
      and the step does not wrap the count of a reference that protects its target. */
  lemma NextKeepsExactly(e: Env, s: Step)
    requires Inv(e)
    ensures CanStep(e) && Inv(Next(e, s))
    ensures Balanced(Next(e, s)) <==> Balanced(e) && !Overflows(e, s)
  {
    hide Shape, Owes, Exec, Enabled, LiveRef;
    ShapeReady(e, s);
    OverflowEnabled(e, s);
    if e.aborted || !Enabled(e, s) || (Guarded(s) && e.pending.Some? && !e.inGc) {
      assert Next(e, s) == e;
    } else if Guarded(s) && e.inGc {
      AbortedShape(e);
      AbortedOwes(e);
    } else {
      ExecShape(e, s);
      forall v ensures Moves(e, s, v) {
        assert e.protects[v] >= Owes(e, v);
        ExecBalance(e, s, v, e.protects[v] - Owes(e, v));
      }
      MovesAll(e, s);
    }
  }

  /** What the step does to the surplus of v. */
  ghost predicate Moves(e: Env, s: Step, v: Val)
    requires CanStep(e) && Enabled(e, s) && (Overflows(e, s) ==> s.Strengthen? && s.r < |e.refs|)
  {
    Exec(e, s).protects[v] - Owes(Exec(e, s), v)
    == e.protects[v] - Owes(e, v) + if Overflows(e, s) then One(e.refs[s.r].value, v) else 0
  }

  lemma MovesAll(e: Env, s: Step)
    requires CanStep(e) && Enabled(e, s) && Covered(e) && (Overflows(e, s) ==> s.Strengthen? && s.r < |e.refs|)
    requires forall v :: Moves(e, s, v)
    ensures Covered(Exec(e, s))
    ensures Balanced(Exec(e, s)) <==> Balanced(e) && !Overflows(e, s)
  {
    hide Owes, Exec, Enabled, Overflows;
    var r := Exec(e, s);
    forall v ensures r.protects[v] >= Owes(r, v) {
      assert Moves(e, s, v) && e.protects[v] >= Owes(e, v);
    }
    if Overflows(e, s) {
      var x := e.refs[s.r].value;
      assert Moves(e, s, x) && e.protects[x] >= Owes(e, x);
      assert r.protects[x] != Owes(r, x);
    } else {
      forall v ensures r.protects[v] == Owes(r, v) <==> e.protects[v] == Owes(e, v) {
        assert Moves(e, s, v);
      }
    }
  }

  lemma OverflowEnabled(e: Env, s: Step)
    ensures Overflows(e, s) ==> !e.aborted && Enabled(e, s) && !Guarded(s) && s.Strengthen? && s.r < |e.refs|
  {
  }

  lemma AbortedOwes(e: Env)
    ensures Covered(e) ==> Covered(e.(aborted := true))
    ensures Balanced(e.(aborted := true)) <==> Balanced(e)
  {
    hide Owes;
    forall v ensures Owes(e.(aborted := true), v) == Owes(e, v) {
      SameOwes(e, e.(aborted := true), v);
    }
  }

  lemma InitInv(experimental: bool, cached: multiset<Val>)
    ensures Inv(Init(experimental, cached)) && Balanced(Init(experimental, cached))
  {
    var e := Init(experimental, cached);
    assert ScopeGood(e.scopes, 0);
    forall v ensures e.protects[v] == Owes(e, v) {
      assert e.scopes == [] + [e.scopes[0]];
      TotalAppend([], e.scopes[0], InScope(v));
    }
  }
}
