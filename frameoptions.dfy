/**
 * ignore-frame-options.js: two optional `webRequest.onHeadersReceived` listeners that
 * strip `X-Frame-Options` and `Content-Security-Policy` from responses so pages can be
 * framed, kept in sync with two settings through a two-slot `listeners` map.
 */
module FrameOptions {
  import opened Wrappers
  import opened Text
  import opened Seqs

  datatype Header = Header(name: string, value: string)

  /** The listener's filter: the headers whose lower-cased name is not `target`. */
  function FilterHeaders(headers: seq<Header>, target: string): seq<Header> {
    if headers == [] then []
    else (if Lower(headers[0].name) != target then [headers[0]] else []) + FilterHeaders(headers[1..], target)
  }

  /**
   * The filter keeps exactly the headers with another name, each as often as it came,
   * in their original order.
   */
  lemma {:induction false} FilterHeadersKeepsOthers(headers: seq<Header>, target: string)
    ensures var r := FilterHeaders(headers, target);
      && IsSubsequence(r, headers)
      && (forall h :: multiset(r)[h] == if Lower(h.name) != target then multiset(headers)[h] else 0)
  {
    if headers != [] {
      FilterHeadersKeepsOthers(headers[1..], target);
      var h0 := headers[0];
      var rest := FilterHeaders(headers[1..], target);
      assert headers == [h0] + headers[1..];
      if Lower(h0.name) != target {
        assert FilterHeaders(headers, target) == [h0] + rest;
      } else {
        assert FilterHeaders(headers, target) == rest;
        if rest != [] {
          assert rest[0] in multiset(rest);
          assert rest[0] != h0;
        }
      }
    }
  }

  /** Filtering a second time removes nothing more. */
  lemma {:induction false} FilterHeadersIdempotent(headers: seq<Header>, target: string)
    ensures FilterHeaders(FilterHeaders(headers, target), target) == FilterHeaders(headers, target)
  {
    if headers != [] {
      FilterHeadersIdempotent(headers[1..], target);
      var rest := FilterHeaders(headers[1..], target);
      if Lower(headers[0].name) != target {
        assert FilterHeaders(headers, target) == [headers[0]] + rest;
        assert ([headers[0]] + rest)[1..] == rest;
        assert FilterHeaders([headers[0]] + rest, target) == [headers[0]] + FilterHeaders(rest, target);
      } else {
        assert FilterHeaders(headers, target) == [] + rest;
        assert [] + rest == rest;
      }
    }
  }

  /** The two entries of `listeners`. */
  datatype Slot = XFrameOptions | ContentSecurityPolicy

  /** The lower-cased header each slot's listener removes. */
  function TargetHeader(slot: Slot): string {
    match slot
    case XFrameOptions => "x-frame-options"
    case ContentSecurityPolicy => "content-security-policy"
  }

  /** A listener closure; `id` tells apart closures created by different `addListener` calls. */
  datatype Listener = Listener(id: nat, filterHeader: string)

  /**
   * `listeners` (null or a closure per slot), the closures `onHeadersReceived` holds
   * in registration order, and the id the next closure gets.
   */
  datatype Registry = Registry(xfo: Option<Listener>, csp: Option<Listener>, registered: seq<Listener>, nextId: nat)

  function SlotOf(r: Registry, slot: Slot): Option<Listener> {
    match slot
    case XFrameOptions => r.xfo
    case ContentSecurityPolicy => r.csp
  }

  function WithSlot(r: Registry, slot: Slot, l: Option<Listener>): Registry {
    match slot
    case XFrameOptions => r.(xfo := l)
    case ContentSecurityPolicy => r.(csp := l)
  }

  /**
   * The registry's invariant: the browser holds exactly the closures in the slots,
   * once each, and each closure removes its slot's header.
   */
  predicate Consistent(r: Registry) {
    && (r.xfo.Some? ==> r.xfo.value.filterHeader == TargetHeader(XFrameOptions) && r.xfo.value.id < r.nextId)
    && (r.csp.Some? ==> r.csp.value.filterHeader == TargetHeader(ContentSecurityPolicy) && r.csp.value.id < r.nextId)
    && (r.xfo.Some? && r.csp.Some? ==> r.xfo.value.id != r.csp.value.id)
    && (|| r.registered == (if r.xfo.Some? then [r.xfo.value] else []) + (if r.csp.Some? then [r.csp.value] else [])
        || r.registered == (if r.csp.Some? then [r.csp.value] else []) + (if r.xfo.Some? then [r.xfo.value] else []))
  }

  const Empty := Registry(None, None, [], 0)

  /** `addListener(name, condition, filterHeader)`. */
  function Added(r: Registry, slot: Slot, condition: bool): Registry {
    if condition && SlotOf(r, slot).None? then
      var l := Listener(r.nextId, TargetHeader(slot));
      WithSlot(r, slot, Some(l)).(registered := r.registered + [l], nextId := r.nextId + 1)
    else r
  }

  /** `browser.webRequest.onHeadersReceived.removeListener(l)`. */
  function Unregister(ls: seq<Listener>, l: Listener): (r: seq<Listener>)
    ensures forall x :: x in r <==> x in ls && x != l
    ensures l !in ls ==> r == ls
  {
    if ls == [] then []
    else (if ls[0] == l then [] else [ls[0]]) + Unregister(ls[1..], l)
  }

  /** `removeListener(name)`. */
  function Removed(r: Registry, slot: Slot): Registry {
    match SlotOf(r, slot)
    case None => r
    case Some(l) => WithSlot(r, slot, None).(registered := Unregister(r.registered, l))
  }

  /** `updateListenersBasedOnSettings()` for the two flags. */
  function Synced(r: Registry, ignoreXfo: bool, ignoreCsp: bool): Registry {
    var a := Added(r, XFrameOptions, ignoreXfo);
    var b := if !ignoreXfo then Removed(a, XFrameOptions) else a;
    var c := Added(b, ContentSecurityPolicy, ignoreCsp);
    if !ignoreCsp then Removed(c, ContentSecurityPolicy) else c
  }

  /** Adding to an occupied slot, or with the condition false, changes nothing: no slot is registered twice. */
  lemma AddNeverDuplicates(r: Registry, slot: Slot, condition: bool)
    requires Consistent(r)
    ensures Consistent(Added(r, slot, condition))
    ensures SlotOf(r, slot).Some? || !condition ==> Added(r, slot, condition) == r
    ensures condition ==> SlotOf(Added(r, slot, condition), slot).Some?
    ensures |Added(r, slot, condition).registered| <= 2
  {
  }

  /** Removing empties the slot, unregisters its closure and leaves the other slot alone. */
  lemma RemoveEmptiesSlot(r: Registry, slot: Slot, other: Slot)
    requires Consistent(r) && other != slot
    ensures Consistent(Removed(r, slot))
    ensures SlotOf(Removed(r, slot), slot).None?
    ensures SlotOf(Removed(r, slot), other) == SlotOf(r, other)
    ensures SlotOf(r, slot).Some? ==> SlotOf(r, slot).value !in Removed(r, slot).registered
  {
    match SlotOf(r, slot)
    case None =>
    case Some(l) =>
      var ls := Unregister(r.registered, l);
      match SlotOf(r, other)
      case None =>
        assert ls == [];
      case Some(m) =>
        assert l != m;
        if r.registered == [l, m] {
          assert r.registered[1..] == [m];
          assert Unregister([m], l) == [m] + Unregister([], l);
        } else {
          assert r.registered == [m, l];
          assert r.registered[1..] == [l];
          assert Unregister([l], l) == [] + Unregister([], l);
        }
  }

  /** After a sync each slot is occupied exactly when its setting is on, from any consistent start. */
  lemma SyncFollowsSettings(r: Registry, ignoreXfo: bool, ignoreCsp: bool)
    requires Consistent(r)
    ensures var s := Synced(r, ignoreXfo, ignoreCsp);
      && Consistent(s)
      && (s.xfo.Some? <==> ignoreXfo)
      && (s.csp.Some? <==> ignoreCsp)
      && |s.registered| == (if ignoreXfo then 1 else 0) + (if ignoreCsp then 1 else 0)
  {
    var a := Added(r, XFrameOptions, ignoreXfo);
    AddNeverDuplicates(r, XFrameOptions, ignoreXfo);
    var b := if !ignoreXfo then Removed(a, XFrameOptions) else a;
    if !ignoreXfo {
      RemoveEmptiesSlot(a, XFrameOptions, ContentSecurityPolicy);
    }
    var c := Added(b, ContentSecurityPolicy, ignoreCsp);
    AddNeverDuplicates(b, ContentSecurityPolicy, ignoreCsp);
    if !ignoreCsp {
      RemoveEmptiesSlot(c, ContentSecurityPolicy, XFrameOptions);
    }
  }

  /** Syncing twice with the same settings is the same as syncing once. */
  lemma SyncIdempotent(r: Registry, ignoreXfo: bool, ignoreCsp: bool)
    requires Consistent(r)
    ensures Synced(Synced(r, ignoreXfo, ignoreCsp), ignoreXfo, ignoreCsp) == Synced(r, ignoreXfo, ignoreCsp)
  {
    SyncFollowsSettings(r, ignoreXfo, ignoreCsp);
    var s := Synced(r, ignoreXfo, ignoreCsp);
    if !ignoreXfo {
      assert Removed(s, XFrameOptions) == s;
    }
    if !ignoreCsp {
      assert Removed(s, ContentSecurityPolicy) == s;
    }
  }

  /** The `listeners` map and what the browser holds. */
  class ListenerRegistry {
    var xfo: Option<Listener>
    var csp: Option<Listener>
    var registered: seq<Listener>
    var nextId: nat

    function State(): Registry
      reads this
    {
      Registry(xfo, csp, registered, nextId)
    }

    constructor ()
      ensures State() == Empty && Consistent(State())
    {
      xfo := None;
      csp := None;
      registered := [];
      nextId := 0;
    }

    method AddListener(slot: Slot, condition: bool)
      modifies this
      ensures State() == Added(old(State()), slot, condition)
    {
      var current := if slot == XFrameOptions then xfo else csp;
      if condition && current.None? {
        var l := Listener(nextId, TargetHeader(slot));
        if slot == XFrameOptions {
          xfo := Some(l);
        } else {
          csp := Some(l);
        }
        registered := registered + [l];
        nextId := nextId + 1;
      }
    }

    method RemoveListener(slot: Slot)
      modifies this
      ensures State() == Removed(old(State()), slot)
    {
      var current := if slot == XFrameOptions then xfo else csp;
      if current.Some? {
        registered := Unregister(registered, current.value);
        if slot == XFrameOptions {
          xfo := None;
        } else {
          csp := None;
        }
      }
    }

    /** `updateListenersBasedOnSettings()` with `ignoreXFrameOptions` and `ignoreContentSecurityPolicy`. */
    method UpdateListenersBasedOnSettings(ignoreXfo: bool, ignoreCsp: bool)
      requires Consistent(State())
      modifies this
      ensures Consistent(State())
      ensures State() == Synced(old(State()), ignoreXfo, ignoreCsp)
      ensures xfo.Some? == ignoreXfo && csp.Some? == ignoreCsp
    {
      AddListener(XFrameOptions, ignoreXfo);
      if !ignoreXfo {
        RemoveListener(XFrameOptions);
      }
      AddListener(ContentSecurityPolicy, ignoreCsp);
      if !ignoreCsp {
        RemoveListener(ContentSecurityPolicy);
      }
      SyncFollowsSettings(old(State()), ignoreXfo, ignoreCsp);
    }
  }
}
