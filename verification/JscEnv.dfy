/** napi_env__ on JavaScriptCore: the object whose methods take the steps of the ledger in place. */
module JscEnvObject {
  import opened Common
  import L = JscLedger

  class JscEnv {
    const experimental: bool
    var scopes: seq<L.Scope>
    var nextScope: nat
    var pendingException: Option<L.Val>
    var protects: multiset<L.Val>
    var refs: seq<L.Ref>
    var holders: seq<L.Holder>
    var deferreds: seq<L.Deferred>
    var cached: multiset<L.Val>
    var frames: seq<L.Frame>
    var buffers: seq<bool>
    var pendingFinalizers: seq<L.Entry>
    var posted: nat
    var inGcFinalizer: bool
    var aborted: bool
    ghost var enqueued: seq<L.Entry>
    ghost var ran: seq<L.Entry>

    ghost function Abs(): L.Env
      reads this
    {
      L.Env(experimental, scopes, nextScope, pendingException, protects, refs, holders, deferreds, cached, frames,
            buffers, pendingFinalizers, posted, inGcFinalizer, aborted, enqueued, ran)
    }

    /** The state without the histories, which no guard looks at. */
    function View(): L.Env
      reads this
    {
      L.Env(experimental, scopes, nextScope, pendingException, protects, refs, holders, deferreds, cached, frames,
            buffers, pendingFinalizers, posted, inGcFinalizer, aborted, [], [])
    }

    lemma SameGuards(s: L.Step)
      ensures L.CanStep(View()) == L.CanStep(Abs())
      ensures L.Enabled(View(), s) == L.Enabled(Abs(), s)
    {
      hide L.Enabled, L.CanStep;
      WithoutHistory(Abs(), s);
    }

    static lemma WithoutHistory(e: L.Env, s: L.Step)
      ensures var r := e.(enqueued := [], ran := []); L.CanStep(r) == L.CanStep(e) && L.Enabled(r, s) == L.Enabled(e, s)
    {
      hide L.FindWrap;
    }

    /** napi_jsc_env_new, with the globals it caches. */
    constructor (experimental: bool, globals: seq<L.Val>)
      ensures Abs() == L.Init(experimental, multiset(globals))
    {
      this.experimental := experimental;
      scopes, nextScope, pendingException := [L.Scope(L.Root, false, false, [])], 0, None;
      refs, holders, deferreds, frames, buffers, pendingFinalizers, posted := [], [], [], [], [], [], 0;
      protects, cached := multiset(globals), multiset(globals);
      inGcFinalizer, aborted, enqueued, ran := false, false, [], [];
    }

    method Protect(v: L.Val)
      modifies this`protects
      ensures protects == old(protects) + multiset{v}
    {
      protects := protects + multiset{v};
    }

    method Unprotect(v: L.Val)
      modifies this`protects
      ensures protects == old(protects) - multiset{v}
    {
      protects := protects - multiset{v};
    }

    static lemma NothingTaken(m: multiset<L.Val>)
      ensures m - multiset{} == m
    {
    }

    /** Releases the pending exception, if there is one. */
    method ReleasePending()
      modifies this`protects
      ensures protects == old(protects) - L.Owned(pendingException)
    {
      if pendingException.Some? { Unprotect(pendingException.value); } else { NothingTaken(protects); }
    }

    /** Releases what a reference holds. */
    method Release(x: L.Ref)
      requires !x.deleted
      modifies this`protects
      ensures protects == old(protects) - L.Holds(x)
    {
      NothingTaken(protects);
      if x.weakable {
        if x.count > 0 && x.alive { Unprotect(x.value); }
      } else {
        Unprotect(x.value);
      }
    }

    static lemma TakeOneMore(m: multiset<L.Val>, s: seq<L.Val>, i: nat)
      requires i < |s|
      ensures m - multiset(s[..i]) - multiset{s[i]} == m - multiset(s[..i + 1])
    {
      assert s[..i + 1] == s[..i] + [s[i]];
      assert multiset(s[..i + 1]) == multiset(s[..i]) + multiset{s[i]};
    }

    method UnprotectAll(handles: seq<L.Val>)
      modifies this`protects
      ensures protects == old(protects) - multiset(handles)
    {
      var i := 0;
      assert handles[..0] == [];
      NothingTaken(protects);
      while i < |handles|
        invariant 0 <= i <= |handles|
        invariant protects == old(protects) - multiset(handles[..i])
      {
        TakeOneMore(old(protects), handles, i);
        Unprotect(handles[i]);
        i := i + 1;
      }
      assert handles[..i] == handles;
    }

    method AddHandle(v: L.Val)
      requires |scopes| > 0
      modifies this
      ensures Abs() == L.Push(old(Abs()), v)
    {
      Protect(v);
      var n := |scopes| - 1;
      scopes := scopes[n := scopes[n].(handles := scopes[n].handles + [v])];
    }

    // ---- handle scopes ---------------------------------------------------------------------------

    method OpenHandleScope(escapable: bool) returns (id: nat)
      modifies this
      ensures Abs() == L.DoOpenScope(old(Abs()), escapable) && L.IsTop(Abs(), L.Api(id))
    {
      id := nextScope;
      scopes := scopes + [L.Scope(L.Api(id), escapable, false, [])];
      nextScope := nextScope + 1;
    }

    method CloseHandleScope(id: nat) returns (ok: bool)
      requires |scopes| > 0
      modifies this
      ensures Abs() == L.DoCloseScope(old(Abs()), id)
      ensures ok <==> old(|scopes|) > 1 && old(L.IsTop(Abs(), L.Api(id)))
    {
      if |scopes| <= 1 || scopes[|scopes| - 1].owner != L.Api(id) { return false; }
      UnprotectAll(scopes[|scopes| - 1].handles);
      scopes := scopes[..|scopes| - 1];
      return true;
    }

    method EscapeHandle(id: nat, v: L.Val) returns (ok: bool)
      requires |scopes| > 0 && exists i | 0 <= i < |scopes| :: scopes[i].owner == L.Api(id)
      modifies this
      ensures Abs() == L.DoEscape(old(Abs()), id, v)
      ensures ok <==> Abs() != old(Abs())
    {
      var n := |scopes| - 1;
      if !(n >= 1 && scopes[n].owner == L.Api(id) && scopes[n].escapable && !scopes[n].escaped) { return false; }
      scopes := scopes[n := scopes[n].(escaped := true)];
      Protect(v);
      scopes := scopes[n - 1 := scopes[n - 1].(handles := scopes[n - 1].handles + [v])];
      assert scopes[n].escaped;
      return true;
    }

    /** CallbackScope. */
    method EnterCallback()
      modifies this
      ensures Abs() == L.DoEnterCallback(old(Abs()))
    {
      frames := frames + [L.InCallback(|scopes|, scopes)];
      scopes := scopes + [L.Scope(L.Callback(|scopes|), false, false, [])];
    }

    /** CallbackScope::close. */
    method CloseCallbackScope(depth: nat)
      requires |scopes| > 0
      modifies this`scopes, this`protects
      ensures Abs() == L.Unwind(old(Abs()), depth)
    {
      hide L.PopScope;
      while |scopes| > 1 && scopes[|scopes| - 1].owner != L.Callback(depth)
        invariant |scopes| > 0
        invariant L.Unwind(Abs(), depth) == L.Unwind(old(Abs()), depth)
        decreases |scopes|
      {
        PopScope();
      }
      PopScope();
    }

    method PopScope()
      requires |scopes| > 0
      modifies this`scopes, this`protects
      ensures Abs() == L.PopScope(old(Abs())) && |scopes| == old(|scopes|) - 1
    {
      var top := scopes[|scopes| - 1];
      scopes := scopes[..|scopes| - 1];
      UnprotectAll(top.handles);
    }

    /** The end of a trampoline. */
    method LeaveCallback()
      requires |scopes| > 0 && frames != [] && frames[|frames| - 1].InCallback?
      modifies this
      ensures Abs() == L.DoLeaveCallback(old(Abs()))
    {
      hide L.Unwind;
      var depth := frames[|frames| - 1].depth;
      frames := frames[..|frames| - 1];
      CloseCallbackScope(depth);
      ForwardPendingException();
    }

    method ForwardPendingException()
      modifies this
      ensures Abs() == L.Forward(old(Abs()))
    {
      hide L.Owned;
      ReleasePending();
      pendingException := None;
    }

    // ---- exceptions ------------------------------------------------------------------------------

    method RecordException(v: L.Val)
      modifies this
      ensures Abs() == L.Record(old(Abs()), v)
    {
      hide L.Owned;
      ReleasePending();
      Protect(v);
      pendingException := Some(v);
    }

    method GetAndClearLastException()
      requires |scopes| > 0
      modifies this
      ensures Abs() == L.DoTakeException(old(Abs()))
    {
      if pendingException.None? {
        AddHandle(L.UNDEFINED);
        return;
      }
      AddHandle(pendingException.value);
      Unprotect(pendingException.value);
      pendingException := None;
    }

    // ---- holders and references ------------------------------------------------------------------

    method FindWrapHolder(v: L.Val) returns (h: Option<nat>)
      ensures h == L.WrapHolder(Abs(), v)
    {
      var n := |holders|;
      assert holders[..n] == holders;
      while n > 0
        invariant 0 <= n <= |holders|
        invariant L.FindWrap(holders[..n], v) == L.FindWrap(holders, v)
      {
        assert holders[..n][..n - 1] == holders[..n - 1];
        if L.IsWrap(holders[n - 1], v) { return Some(n - 1); }
        n := n - 1;
      }
      return None;
    }

    /** ExternalFinalize. */
    method ExternalFinalize(h: nat)
      requires h < |holders|
      modifies this
      ensures Abs() == L.DoCollect(old(Abs()), h)
    {
      hide L.KillAll, L.Kill;
      EmptyReferences(h);
      holders := holders[h := holders[h].(collected := true)];
      if holders[h].finalizer {
        pendingFinalizers := pendingFinalizers + [L.OfHolder(h)];
        enqueued := enqueued + [L.OfHolder(h)];
      }
    }

    /** Empties the references whose control blocks are on the holder. */
    method EmptyReferences(h: nat)
      modifies this`refs
      ensures refs == L.KillAll(old(refs), h)
    {
      hide L.KillAll;
      var i := 0;
      while i < |refs|
        invariant 0 <= i <= |refs| && |refs| == |old(refs)|
        invariant forall j | 0 <= j < i :: refs[j] == L.Kill(old(refs)[j], h)
        invariant forall j | i <= j < |refs| :: refs[j] == old(refs)[j]
      {
        if refs[i].weakable && refs[i].holder == h { refs := refs[i := refs[i].(alive := false)]; }
        i := i + 1;
      }
    }

    /** Allocates a napi_ref and takes the protect it starts with. */
    method NewReference(x: L.Ref)
      requires x.alive && !x.deleted
      modifies this
      ensures Abs() == L.NewRef(old(Abs()), x)
    {
      if !x.weakable || x.count > 0 { Protect(x.value); }
      refs := refs + [x];
    }

    method MakeReference(v: L.Val, isObject: bool, count: L.uint32, landed: bool) returns (r: nat)
      modifies this
      ensures Abs() == L.MakeReference(old(Abs()), v, isObject, count, landed)
      ensures r == old(|refs|)
    {
      hide L.FindWrap, L.NewRef;
      r := |refs|;
      if isObject {
        var existing := FindWrapHolder(v);
        if existing.Some? {
          NewReference(L.WeakRef(v, count, existing.value));
          return;
        }
        holders := holders + [L.Holder(v, landed, false, 0, false, experimental, false)];
        if landed {
          NewReference(L.WeakRef(v, count, |holders| - 1));
          return;
        }
      }
      NewReference(L.Ref(v, count, false, 0, true, false));
    }

    /** AttachHolder on an extensible anchor, with the reference asked for. */
    method AttachHolder(h: L.Holder, wantsRef: bool)
      modifies this
      ensures Abs() == L.Attach(old(Abs()), h, wantsRef)
    {
      hide L.NewRef;
      holders := holders + [h];
      if wantsRef { NewReference(L.WeakRef(h.anchor, 0, |holders| - 1)); }
    }

    /** napi_wrap; an object whose wrap was removed but still backs references is not wrapped again. */
    method Wrap(v: L.Val, data: nat, finalizer: bool, wantsRef: bool) returns (ok: bool)
      requires var h := L.WrapHolder(Abs(), v); h.Some? ==> holders[h.value].data != 0
      modifies this
      ensures ok <==> L.WrapHolder(old(Abs()), v).None?
      ensures Abs() == if ok then L.Attach(old(Abs()), L.Holder(v, true, true, data, finalizer, experimental, false), wantsRef)
                       else old(Abs())
    {
      hide L.FindWrap, L.Attach;
      var h := FindWrapHolder(v);
      if h.Some? && holders[h.value].data != 0 { return false; }
      AttachHolder(L.Holder(v, true, true, data, finalizer, experimental, false), wantsRef);
      return true;
    }

    /** napi_add_finalizer. */
    method AddFinalizer(v: L.Val, wantsRef: bool)
      modifies this
      ensures Abs() == L.Attach(old(Abs()), L.Holder(v, true, false, 0, true, experimental, false), wantsRef)
    {
      AttachHolder(L.Holder(v, true, false, 0, true, experimental, false), wantsRef);
    }

    /** napi_create_external: the external is its own holder. */
    method CreateExternal(v: L.Val, data: nat, finalizer: bool)
      requires |scopes| > 0
      modifies this
      ensures Abs() == L.DoCreateExternal(old(Abs()), v, data, finalizer)
    {
      hide L.Push;
      holders := holders + [L.Holder(v, true, false, data, finalizer, false, false)];
      AddHandle(v);
    }

    method RemoveWrap(v: L.Val) returns (data: Option<nat>)
      modifies this
      ensures Abs() == L.DoRemoveWrap(old(Abs()), v)
      ensures data == match L.WrapHolder(old(Abs()), v) case None => None case Some(h) => Some(old(holders)[h].data)
    {
      hide L.FindWrap;
      var h := FindWrapHolder(v);
      if h.None? { return None; }
      data := Some(holders[h.value].data);
      var keep := L.Backs(refs, h.value);
      holders := holders[h.value := holders[h.value].(finalizer := false, data := 0, attached := keep)];
    }

    method DeleteReference(r: nat)
      requires r < |refs| && !refs[r].deleted
      modifies this
      ensures Abs() == L.DoDeleteRef(old(Abs()), r)
    {
      hide L.Holds;
      Release(refs[r]);
      refs := refs[r := refs[r].(deleted := true)];
    }

    method SetCount(r: nat, n: L.uint32)
      requires r < |refs|
      modifies this`refs
      ensures Abs() == L.PutRef(old(Abs()), r, old(refs[r]).(count := n))
    {
      refs := refs[r := refs[r].(count := n)];
    }

    method ReferenceRef(r: nat) returns (count: L.uint32)
      requires r < |refs|
      modifies this
      ensures Abs() == L.DoStrengthen(old(Abs()), r) && count == refs[r].count
    {
      hide L.Holds;
      var x := refs[r];
      count := (x.count + 1) % 0x1_0000_0000;
      SetCount(r, count);
      if x.weakable && count == 1 && x.alive { Protect(x.value); }
    }

    method ReferenceUnref(r: nat) returns (count: Option<L.uint32>)
      requires r < |refs|
      modifies this
      ensures Abs() == L.DoWeaken(old(Abs()), r)
      ensures count == if old(refs[r].count) == 0 then None else Some(refs[r].count)
    {
      var x := refs[r];
      if x.count == 0 { return None; }
      SetCount(r, x.count - 1);
      if x.weakable && x.count == 1 && x.alive { Unprotect(x.value); }
      count := Some(x.count - 1);
    }

    method GetReferenceValue(r: nat) returns (v: Option<L.Val>)
      requires r < |refs| && |scopes| > 0
      modifies this
      ensures v == L.Reads(old(refs[r]))
      ensures Abs() == if v.Some? then L.Push(old(Abs()), v.value) else old(Abs())
    {
      if refs[r].weakable && !refs[r].alive { return None; }
      v := Some(refs[r].value);
      AddHandle(refs[r].value);
    }

    // ---- promises and the finalizer queue --------------------------------------------------------

    method CreatePromise(resolve: L.Val, reject: L.Val, promise: L.Val) returns (d: nat)
      requires |scopes| > 0
      modifies this
      ensures Abs() == L.DoCreatePromise(old(Abs()), resolve, reject, promise)
      ensures d == old(|deferreds|)
    {
      hide L.Push;
      Protect(resolve);
      Protect(reject);
      d := |deferreds|;
      deferreds := deferreds + [L.Deferred(resolve, reject, L.Open)];
      AddHandle(promise);
    }

    /** SettleDeferred up to the call of resolve or reject. */
    method BeginSettle(d: nat)
      requires d < |deferreds|
      modifies this
      ensures Abs() == L.DoSettle(old(Abs()), d)
    {
      deferreds := deferreds[d := deferreds[d].(state := L.InProgress)];
      frames := frames + [L.Settling(d)];
    }

    method EndSettle(d: nat)
      requires d < |deferreds|
      modifies this
      ensures Abs() == L.EndSettle(old(Abs()), d)
    {
      Unprotect(deferreds[d].resolve);
      Unprotect(deferreds[d].reject);
      deferreds := deferreds[d := deferreds[d].(state := L.Settled)];
    }

    /** SettleDeferred after the call of resolve or reject came back. */
    method SettleReturned(threw: Option<L.Val>)
      requires frames != [] && frames[|frames| - 1].Settling? && frames[|frames| - 1].d < |deferreds|
      modifies this
      ensures Abs() == L.DoJsReturns(old(Abs()), threw)
    {
      hide L.Record, L.EndSettle;
      var d := frames[|frames| - 1].d;
      frames := frames[..|frames| - 1];
      EndSettle(d);
      if threw.Some? { RecordException(threw.value); }
    }

    /** A call into JavaScript, with the preamble or without it. */
    method CallJs(query: bool)
      modifies this
      ensures Abs() == old(Abs()).(frames := old(frames) + [if query then L.InQuery else L.InJs])
    {
      frames := frames + [if query then L.InQuery else L.InJs];
    }

    /** Such a call came back; only the one with the preamble keeps what was thrown. */
    method CallReturned(threw: Option<L.Val>)
      requires frames != [] && (frames[|frames| - 1].InJs? || frames[|frames| - 1].InQuery?)
      modifies this
      ensures Abs() == L.DoJsReturns(old(Abs()), threw)
    {
      hide L.Record;
      var query := frames[|frames| - 1].InQuery?;
      frames := frames[..|frames| - 1];
      if threw.Some? && !query { RecordException(threw.value); }
    }

    /** A factory function compiled once and kept for the life of the environment. */
    method BuildFactory(v: L.Val)
      modifies this
      ensures Abs() == old(Abs()).(protects := old(protects) + multiset{v}, cached := old(cached) + multiset{v})
    {
      Protect(v);
      cached := cached + multiset{v};
    }

    /** node_api_post_finalizer, and the end of an external string's creation. */
    method PostFinalizer(hasCallback: bool)
      modifies this
      ensures Abs() == if hasCallback then L.DoPost(old(Abs())) else old(Abs())
    {
      if hasCallback {
        pendingFinalizers := pendingFinalizers + [L.Posted(posted)];
        enqueued := enqueued + [L.Posted(posted)];
        posted := posted + 1;
      }
    }

    /** napi_create_external_arraybuffer. */
    method CreateBuffer(v: L.Val, finalizer: bool)
      requires |scopes| > 0
      modifies this
      ensures Abs() == L.Push(old(Abs()), v).(buffers := if finalizer then old(buffers) + [false] else old(buffers))
    {
      hide L.Push;
      AddHandle(v);
      if finalizer { buffers := buffers + [false]; }
    }

    /** The deallocator of an external array buffer. */
    method DeallocFinalize(b: nat)
      requires b < |buffers| && !buffers[b]
      modifies this
      ensures Abs() == L.DoPost(old(Abs()).(buffers := old(buffers)[b := true]))
    {
      buffers := buffers[b := true];
      PostFinalizer(true);
    }

    /** One turn of napi_jsc_drain_finalizers up to the call of the finalizer. */
    method StartNextFinalizer() returns (entry: L.Entry)
      requires pendingFinalizers != []
      modifies this
      ensures Abs() == L.DoNextFinalizer(old(Abs())) && entry == old(pendingFinalizers)[0]
    {
      entry := pendingFinalizers[0];
      pendingFinalizers := pendingFinalizers[1..];
      ran := ran + [entry];
      frames := frames + [L.InFinalizer(entry)];
      inGcFinalizer := entry.OfHolder? && entry.h < |holders| && holders[entry.h].basic;
    }

    /** What the drain loop does when the finalizer returned. */
    method FinalizerReturned()
      requires frames != []
      modifies this
      ensures Abs() == L.DoFinalizerReturns(old(Abs()))
    {
      frames := frames[..|frames| - 1];
      inGcFinalizer := false;
      if pendingException.Some? {
        var error := pendingException.value;
        pendingException := None;
        frames := frames + [L.Surfacing(error)];
      }
    }

    /** The exception a finalizer left has been reported. */
    method Surfaced()
      requires frames != [] && frames[|frames| - 1].Surfacing?
      modifies this
      ensures Abs() == L.DoSurfaced(old(Abs()))
    {
      Unprotect(frames[|frames| - 1].error);
      frames := frames[..|frames| - 1];
    }

    /** napi_jsc_drain_finalizers begins. */
    method BeginDrain()
      modifies this
      ensures Abs() == old(Abs()).(frames := old(frames) + [L.InDrain])
    {
      frames := frames + [L.InDrain];
    }

    method EndDrain()
      requires frames != []
      modifies this
      ensures Abs() == L.PopFrame(old(Abs()))
    {
      frames := frames[..|frames| - 1];
    }

    // ---- one step --------------------------------------------------------------------------------

    method ExecScope(s: L.Step)
      requires L.ScopeStep(s) && L.CanStep(Abs()) && L.Enabled(Abs(), s)
      modifies this
      ensures Abs() == L.ExecScope(old(Abs()), s)
    {
      hide L.Push, L.DoEscape, L.Record, L.DoTakeException, L.DoCloseScope, L.DoLeaveCallback, L.DoEnterCallback,
        L.DoOpenScope, L.IsTop;
      match s
      case AddHandle(v) => AddHandle(v);
      case OpenScope(escapable) => var _ := OpenHandleScope(escapable);
      case CloseScope(id) => var _ := CloseHandleScope(id);
      case Escape(id, v) => var _ := EscapeHandle(id, v);
      case Throw(v) => RecordException(v);
      case TakeException => GetAndClearLastException();
      case GetValue(r) => var _ := GetReferenceValue(r);
      case EnterCallback => EnterCallback();
      case LeaveCallback => LeaveCallback();
      case CreateBuffer(v, finalizer) => CreateBuffer(v, finalizer);
    }

    method ExecRef(s: L.Step)
      requires L.RefStep(s) && L.CanStep(Abs()) && L.Enabled(Abs(), s)
      modifies this
      ensures Abs() == L.ExecRef(old(Abs()), s)
    {
      hide L.FindWrap, L.Attach, L.MakeReference, L.DoRemoveWrap, L.DoDeleteRef, L.DoStrengthen, L.DoWeaken, L.DoCollect,
        L.DoPost, L.DoCreateExternal;
      match s
      case CreateReference(v, isObject, count, landed) => var _ := MakeReference(v, isObject, count, landed);
      case Wrap(v, data, finalizer, wantsRef) => var _ := Wrap(v, data, finalizer, wantsRef);
      case RemoveWrap(v) => var _ := RemoveWrap(v);
      case AddFinalizer(v, wantsRef) => AddFinalizer(v, wantsRef);
      case CreateExternal(v, data, finalizer) => CreateExternal(v, data, finalizer);
      case DeleteRef(r) => DeleteReference(r);
      case Strengthen(r) => var _ := ReferenceRef(r);
      case Weaken(r) => var _ := ReferenceUnref(r);
      case Collect(h) => ExternalFinalize(h);
      case PostFinalizer(hasCallback) => PostFinalizer(hasCallback);
      case FreeBuffer(b) => DeallocFinalize(b);
    }

    method ExecFrame(s: L.Step)
      requires !L.ScopeStep(s) && !L.RefStep(s) && L.CanStep(Abs()) && L.Enabled(Abs(), s)
      modifies this
      ensures Abs() == L.ExecFrame(old(Abs()), s)
    {
      hide L.DoCreatePromise, L.DoSettle, L.DoJsReturns, L.DoNextFinalizer, L.DoFinalizerReturns, L.DoSurfaced, L.PopFrame;
      match s
      case CreatePromise(resolve, reject, promise) => var _ := CreatePromise(resolve, reject, promise);
      case Settle(d) => BeginSettle(d);
      case CallJs => CallJs(false);
      case QueryJs => CallJs(true);
      case BuildFactory(v) => BuildFactory(v);
      case JsReturns(threw) =>
        if frames[|frames| - 1].Settling? { SettleReturned(threw); } else { CallReturned(threw); }
      case Drain => BeginDrain();
      case NextFinalizer => var _ := StartNextFinalizer();
      case FinalizerReturns => FinalizerReturned();
      case Surfaced => Surfaced();
      case DrainEnds => EndDrain();
    }

    /** A step past its guards. */
    method Take(s: L.Step)
      requires L.CanStep(Abs()) && L.Enabled(Abs(), s)
      modifies this
      ensures Abs() == L.Exec(old(Abs()), s)
    {
      hide L.Enabled, L.CanStep, L.ExecScope, L.ExecRef, L.ExecFrame, L.ScopeStep, L.RefStep;
      if L.ScopeStep(s) {
        ExecScope(s);
      } else if L.RefStep(s) {
        ExecRef(s);
      } else {
        ExecFrame(s);
      }
    }

    /** One step with its guards: every run of steps on the object is a run of the ledger. */
    method Exec(s: L.Step)
      modifies this
      ensures Abs() == L.Next(old(Abs()), s)
    {
      hide L.Enabled, L.CanStep, L.Exec, L.Guarded;
      SameGuards(s);
      if aborted || !L.CanStep(View()) || !L.Enabled(View(), s) { return; }
      if L.Guarded(s) && inGcFinalizer {
        aborted := true;
        return;
      }
      if L.Guarded(s) && pendingException.Some? { return; }
      Take(s);
    }
  }
}
