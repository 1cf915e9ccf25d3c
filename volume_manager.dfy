// Per-view volume bookkeeping of tomviz's VolumeManager: every render view
// that shows volume modules gets a record of the multi-volume ports handed
// out to its modules, and the manager switches the view between one actor
// per volume and a single vtkMultiVolume depending on how many volumes the
// view holds. Rendering calls are reduced to the set of ports currently
// attached to the multi-volume; Qt signals are appended to a log.

module Volumes {
  type ViewId = nat
  type ModuleId = nat

  /**
   * ViewVolumes: the ports handed out to the view's volume modules, the next
   * port to hand out (port 0 holds the auxiliary volume), the two flags, and
   * the ports whose volume is currently set on the multi-volume.
   */
  datatype ViewVolumes = ViewVolumes(
    ports: map<ModuleId, nat>,
    currentPort: nat,
    allowMulti: bool,
    usingMulti: bool,
    attached: set<nat>)

  datatype Signal =
    | VolumeCountChanged(view: ViewId, count: nat)
    | UsingMultiVolumeChanged(view: ViewId, on: bool)
    | AllowMultiVolumeChanged(view: ViewId, allow: bool)

  /** The manager: one record per known view, and the signals emitted so far. */
  datatype ManagerState = ManagerState(views: map<ViewId, ViewVolumes>, signals: seq<Signal>)

  /** The record a view gets when its first volume arrives. */
  function NewView(): ViewVolumes
  {
    ViewVolumes(map[], 1, true, false, {})
  }

  /** The ports of the registered modules among `mods`. */
  function PortsOf(v: ViewVolumes, mods: set<ModuleId>): set<nat>
  {
    set m | m in v.ports.Keys && m in mods :: v.ports[m]
  }

  predicate ValidView(v: ViewVolumes)
  {
    (forall m :: m in v.ports ==> 1 <= v.ports[m] < v.currentPort)
    && (forall m, n :: m in v.ports && n in v.ports && m != n ==> v.ports[m] != v.ports[n])
    && v.currentPort >= 1
    && v.attached <= v.ports.Values
    && (!v.usingMulti ==> v.attached == {})
  }

  /**
   * The bookkeeping invariant: ports are at least 1 (port 0 is the auxiliary
   * volume), below the next port to hand out, and distinct within a view;
   * only registered ports are attached, and none while the view is not
   * using the multi-volume.
   */
  ghost predicate Valid(s: ManagerState)
  {
    forall view :: view in s.views ==> ValidView(s.views[view])
  }

  /** multiVolumeOn: attach every visible registered volume and turn the flag on. */
  function MultiOn(s: ManagerState, view: ViewId, visible: set<ModuleId>): ManagerState
  {
    if view !in s.views then s
    else
      var v := s.views[view];
      var v' := v.(attached := v.attached + PortsOf(v, visible), usingMulti := true);
      ManagerState(s.views[view := v'],
                   s.signals + (if v.usingMulti then [] else [UsingMultiVolumeChanged(view, true)]))
  }

  /** multiVolumeOff: detach every registered volume and turn the flag off. */
  function MultiOff(s: ManagerState, view: ViewId): ManagerState
  {
    if view !in s.views then s
    else
      var v := s.views[view];
      var v' := v.(attached := v.attached - v.ports.Values, usingMulti := false);
      ManagerState(s.views[view := v'],
                   s.signals + (if v.usingMulti then [UsingMultiVolumeChanged(view, false)] else []))
  }

  /** The view's record with `vol` registered at the next free port. */
  function Registered(s: ManagerState, view: ViewId, vol: ModuleId): ViewVolumes
  {
    var v := if view in s.views then s.views[view] else NewView();
    v.(ports := v.ports[vol := v.currentPort], currentPort := v.currentPort + 1)
  }

  /** onModuleAdded for a volume module `vol` shown in `view`. */
  function Added(s: ManagerState, view: ViewId, vol: ModuleId, visible: set<ModuleId>, switchAt: nat): ManagerState
  {
    var v := Registered(s, view, vol);
    var s1 := ManagerState(s.views[view := v], s.signals);
    var s2 := if |v.ports| >= switchAt && v.allowMulti then MultiOn(s1, view, visible) else s1;
    ManagerState(s2.views, s2.signals + [VolumeCountChanged(view, |v.ports|)])
  }

  /** The view's record with `vol`'s port entry erased and its port detached. */
  function Unregistered(v: ViewVolumes, vol: ModuleId): ViewVolumes
  {
    if vol in v.ports then v.(ports := v.ports - {vol}, attached := v.attached - {v.ports[vol]})
    else v
  }

  /** onModuleRemoved: a no-op on an unknown view. */
  function Removed(s: ManagerState, view: ViewId, vol: ModuleId, switchAt: nat): ManagerState
  {
    if view !in s.views then s
    else
      var v := Unregistered(s.views[view], vol);
      var s1 := ManagerState(s.views[view := v], s.signals);
      var s2 := if |v.ports| < switchAt then MultiOff(s1, view) else s1;
      ManagerState(s2.views, s2.signals + [VolumeCountChanged(view, |v.ports|)])
  }

  /** allowMultiVolume(allow, view). */
  function AllowMulti(s: ManagerState, view: ViewId, allow: bool, visible: set<ModuleId>, switchAt: nat): ManagerState
  {
    if view !in s.views then s
    else
      var v := s.views[view];
      var s1 :=
        if allow then (if !v.usingMulti && |v.ports| >= switchAt then MultiOn(s, view, visible) else s)
        else (if v.usingMulti then MultiOff(s, view) else s);
      var v1 := s1.views[view];
      if v1.allowMulti != allow then
        ManagerState(s1.views[view := v1.(allowMulti := allow)], s1.signals + [AllowMultiVolumeChanged(view, allow)])
      else s1
  }

  /** onVisibilityChanged: only a registered volume of a view in multi-volume mode is (de)attached. */
  function VisibilityChanged(s: ManagerState, view: ViewId, vol: ModuleId, visible: bool): ManagerState
  {
    if view !in s.views || vol !in s.views[view].ports || !s.views[view].usingMulti then s
    else
      var v := s.views[view];
      var port := v.ports[vol];
      var v' := v.(attached := if visible then v.attached + {port} else v.attached - {port});
      ManagerState(s.views[view := v'], s.signals)
  }

  /** The query allowMultiVolume(view): true for an unknown view, otherwise the using flag. */
  function AllowMultiQuery(s: ManagerState, view: ViewId): bool
  {
    if view !in s.views then true else s.views[view].usingMulti
  }

  /** volumeCount(view): 0 for an unknown view. */
  function VolumeCount(s: ManagerState, view: ViewId): nat
  {
    if view !in s.views then 0 else |s.views[view].ports|
  }

  /** The events the manager reacts to. */
  datatype Event =
    | Add(view: ViewId, vol: ModuleId, visibleModules: set<ModuleId>)
    | Remove(view: ViewId, vol: ModuleId)
    | Allow(view: ViewId, allow: bool, visibleModules: set<ModuleId>)
    | Visibility(view: ViewId, vol: ModuleId, visible: bool)

  /** ModuleManager announces each module once. */
  predicate Enabled(s: ManagerState, e: Event)
  {
    e.Add? ==> (e.view in s.views ==> e.vol !in s.views[e.view].ports)
  }

  function Step(s: ManagerState, e: Event, switchAt: nat): ManagerState
  {
    match e
    case Add(view, vol, vis) => Added(s, view, vol, vis, switchAt)
    case Remove(view, vol) => Removed(s, view, vol, switchAt)
    case Allow(view, allow, vis) => AllowMulti(s, view, allow, vis, switchAt)
    case Visibility(view, vol, visible) => VisibilityChanged(s, view, vol, visible)
  }

  function UsingOf(s: ManagerState, view: ViewId): bool
  {
    view in s.views && s.views[view].usingMulti
  }

  // ---------------------------------------------------------------------
  // Lemmas

  lemma PortsOfRegistered(v: ViewVolumes, mods: set<ModuleId>)
    ensures PortsOf(v, mods) <= v.ports.Values
  {
  }

  /** Replacing one view's record by a valid one keeps the manager valid. */
  lemma UpdateValid(s: ManagerState, view: ViewId, v: ViewVolumes, signals: seq<Signal>)
    requires Valid(s) && ValidView(v)
    ensures Valid(ManagerState(s.views[view := v], signals))
  {
  }

  lemma MultiOnValid(s: ManagerState, view: ViewId, visible: set<ModuleId>)
    requires Valid(s)
    ensures Valid(MultiOn(s, view, visible))
    ensures MultiOn(s, view, visible).signals[..|s.signals|] == s.signals
  {
    if view in s.views {
      PortsOfRegistered(s.views[view], visible);
    }
  }

  lemma MultiOffValid(s: ManagerState, view: ViewId)
    requires Valid(s)
    ensures Valid(MultiOff(s, view))
    ensures MultiOff(s, view).signals[..|s.signals|] == s.signals
  {
  }

  lemma RegisteredValid(s: ManagerState, view: ViewId, vol: ModuleId)
    requires Valid(s) && Enabled(s, Add(view, vol, {}))
    ensures ValidView(Registered(s, view, vol))
  {
    var v := if view in s.views then s.views[view] else NewView();
    var r := Registered(s, view, vol);
    assert v.ports.Values <= r.ports.Values by {
      forall p | p in v.ports.Values ensures p in r.ports.Values {
        var m :| m in v.ports && v.ports[m] == p;
        assert r.ports[m] == p;
      }
    }
  }

  lemma UnregisteredValid(v: ViewVolumes, vol: ModuleId)
    requires ValidView(v)
    ensures ValidView(Unregistered(v, vol))
  {
    var u := Unregistered(v, vol);
    if vol in v.ports {
      forall p | p in u.attached ensures p in u.ports.Values {
        var m :| m in v.ports && v.ports[m] == p;
        assert m != vol;
        assert u.ports[m] == p;
      }
    }
  }

  /** onModuleAdded keeps the bookkeeping valid and only appends signals. */
  lemma AddedValid(s: ManagerState, view: ViewId, vol: ModuleId, visible: set<ModuleId>, switchAt: nat)
    requires Valid(s) && Enabled(s, Add(view, vol, visible))
    ensures Valid(Added(s, view, vol, visible, switchAt))
    ensures Added(s, view, vol, visible, switchAt).signals[..|s.signals|] == s.signals
  {
    RegisteredValid(s, view, vol);
    var v := Registered(s, view, vol);
    UpdateValid(s, view, v, s.signals);
    MultiOnValid(ManagerState(s.views[view := v], s.signals), view, visible);
  }

  /**
   * The added volume gets the view's next port (1 for a new view), every
   * other volume keeps its port, the next port moves up by one and the
   * count grows by one; with the bookkeeping valid, all ports of the view
   * stay distinct and at least 1.
   */
  lemma AddedPorts(s: ManagerState, view: ViewId, vol: ModuleId, visible: set<ModuleId>, switchAt: nat)
    requires Valid(s) && Enabled(s, Add(view, vol, visible))
    ensures var s' := Added(s, view, vol, visible, switchAt);
      view in s'.views
      && s'.views[view].ports[vol] == (if view in s.views then s.views[view].currentPort else 1)
      && (view in s.views ==> s'.views[view].ports == s.views[view].ports[vol := s.views[view].currentPort])
      && s'.views[view].currentPort == s'.views[view].ports[vol] + 1
      && VolumeCount(s', view) == VolumeCount(s, view) + 1
  {
  }

  /** After an add, the view uses the multi-volume iff it already did, or it now has at least MULTI_VOLUME_SWITCH volumes and allows it. */
  lemma AddedSwitchesOn(s: ManagerState, view: ViewId, vol: ModuleId, visible: set<ModuleId>, switchAt: nat)
    ensures var s' := Added(s, view, vol, visible, switchAt);
      var allowed := Registered(s, view, vol).allowMulti;
      (UsingOf(s', view) <==> UsingOf(s, view) || (VolumeCount(s', view) >= switchAt && allowed))
    ensures UsingOf(s, view) ==>
      Added(s, view, vol, visible, switchAt).views[view].attached >= s.views[view].attached
  {
  }

  /** A removal on an unknown view changes nothing and emits nothing. */
  lemma RemovedUnknownView(s: ManagerState, view: ViewId, vol: ModuleId, switchAt: nat)
    requires view !in s.views
    ensures Removed(s, view, vol, switchAt) == s
  {
  }

  lemma RemovedValid(s: ManagerState, view: ViewId, vol: ModuleId, switchAt: nat)
    requires Valid(s)
    ensures Valid(Removed(s, view, vol, switchAt))
    ensures Removed(s, view, vol, switchAt).signals[..|s.signals|] == s.signals
  {
    if view in s.views {
      var v := Unregistered(s.views[view], vol);
      UnregisteredValid(s.views[view], vol);
      UpdateValid(s, view, v, s.signals);
      MultiOffValid(ManagerState(s.views[view := v], s.signals), view);
    }
  }

  /**
   * On a known view, the module's port entry is gone, every other volume
   * keeps its port, and the multi-volume is off when fewer than
   * MULTI_VOLUME_SWITCH volumes remain; otherwise the flag is unchanged.
   */
  lemma RemovedErasesPort(s: ManagerState, view: ViewId, vol: ModuleId, switchAt: nat)
    requires view in s.views
    ensures var s' := Removed(s, view, vol, switchAt);
      view in s'.views
      && s'.views[view].ports == s.views[view].ports - {vol}
      && (VolumeCount(s', view) < switchAt ==> !UsingOf(s', view))
      && (VolumeCount(s', view) >= switchAt ==> UsingOf(s', view) == UsingOf(s, view))
      && (vol in s.views[view].ports ==> s.views[view].ports[vol] !in s'.views[view].attached)
  {
  }

  lemma AllowMultiValid(s: ManagerState, view: ViewId, allow: bool, visible: set<ModuleId>, switchAt: nat)
    requires Valid(s)
    ensures Valid(AllowMulti(s, view, allow, visible, switchAt))
    ensures AllowMulti(s, view, allow, visible, switchAt).signals[..|s.signals|] == s.signals
  {
    if view in s.views {
      MultiOnValid(s, view, visible);
      MultiOffValid(s, view);
    }
  }

  /**
   * allowMultiVolume(allow, view): a no-op on an unknown view; otherwise
   * allowing turns the multi-volume on when at least MULTI_VOLUME_SWITCH
   * volumes are present (and leaves it as it was below that), disallowing
   * turns it off, and the allow flag ends up equal to the argument.
   */
  lemma AllowMultiOutcome(s: ManagerState, view: ViewId, allow: bool, visible: set<ModuleId>, switchAt: nat)
    ensures var s' := AllowMulti(s, view, allow, visible, switchAt);
      (view !in s.views ==> s' == s)
      && (view in s.views ==>
            view in s'.views && s'.views[view].allowMulti == allow
            && s'.views[view].ports == s.views[view].ports
            && (allow ==> (UsingOf(s', view) <==> UsingOf(s, view) || VolumeCount(s, view) >= switchAt))
            && (!allow ==> !UsingOf(s', view)))
  {
  }

  /** The query reports the using flag: after disallowing it is false, after allowing with enough volumes it is true. */
  lemma AllowMultiQueryAfterSet(s: ManagerState, view: ViewId, allow: bool, visible: set<ModuleId>, switchAt: nat)
    requires view in s.views
    ensures !allow ==> !AllowMultiQuery(AllowMulti(s, view, allow, visible, switchAt), view)
    ensures allow && VolumeCount(s, view) >= switchAt ==> AllowMultiQuery(AllowMulti(s, view, allow, visible, switchAt), view)
  {
  }

  /** The queries on a view the manager has never seen. */
  lemma QueriesOnUnknownView(s: ManagerState, view: ViewId)
    requires view !in s.views
    ensures AllowMultiQuery(s, view) && VolumeCount(s, view) == 0
  {
  }

  /** A visibility change touches the attached ports only of a registered volume in a view using the multi-volume. */
  lemma VisibilityOnlyInMultiMode(s: ManagerState, view: ViewId, vol: ModuleId, visible: bool)
    requires Valid(s)
    ensures var s' := VisibilityChanged(s, view, vol, visible);
      Valid(s')
      && (s' != s ==> view in s.views && vol in s.views[view].ports && s.views[view].usingMulti)
      && (s' != s ==>
            s'.views[view].attached
              == if visible then s.views[view].attached + {s.views[view].ports[vol]}
                 else s.views[view].attached - {s.views[view].ports[vol]})
  {
  }

  /** Every event keeps the bookkeeping valid and only appends signals. */
  lemma StepValid(s: ManagerState, e: Event, switchAt: nat)
    requires Valid(s) && Enabled(s, e)
    ensures Valid(Step(s, e, switchAt))
    ensures Step(s, e, switchAt).signals[..|s.signals|] == s.signals
  {
    match e
    case Add(view, vol, vis) => AddedValid(s, view, vol, vis, switchAt);
    case Remove(view, vol) => RemovedValid(s, view, vol, switchAt);
    case Allow(view, allow, vis) => AllowMultiValid(s, view, allow, vis, switchAt);
    case Visibility(view, vol, visible) => VisibilityOnlyInMultiMode(s, view, vol, visible);
  }

  /** The signals an event appended. */
  function NewSignals(s: ManagerState, e: Event, switchAt: nat): seq<Signal>
    requires |s.signals| <= |Step(s, e, switchAt).signals|
  {
    Step(s, e, switchAt).signals[|s.signals|..]
  }

  /** The usingMultiVolumeChanged signal an event emits: one exactly when the flag changes, carrying the new value. */
  function UsingSignal(s: ManagerState, s': ManagerState, view: ViewId): seq<Signal>
  {
    if UsingOf(s, view) == UsingOf(s', view) then [] else [UsingMultiVolumeChanged(view, UsingOf(s', view))]
  }

  lemma AddedSignals(s: ManagerState, view: ViewId, vol: ModuleId, visible: set<ModuleId>, switchAt: nat)
    ensures var s' := Added(s, view, vol, visible, switchAt);
      s'.signals == s.signals + UsingSignal(s, s', view) + [VolumeCountChanged(view, VolumeCount(s', view))]
  {
    var v := Registered(s, view, vol);
    var s1 := ManagerState(s.views[view := v], s.signals);
    assert UsingOf(s1, view) == UsingOf(s, view);
  }

  lemma RemovedSignals(s: ManagerState, view: ViewId, vol: ModuleId, switchAt: nat)
    requires view in s.views
    ensures var s' := Removed(s, view, vol, switchAt);
      s'.signals == s.signals + UsingSignal(s, s', view) + [VolumeCountChanged(view, VolumeCount(s', view))]
  {
    var v := Unregistered(s.views[view], vol);
    var s1 := ManagerState(s.views[view := v], s.signals);
    assert UsingOf(s1, view) == UsingOf(s, view);
  }

  lemma AllowSignals(s: ManagerState, view: ViewId, allow: bool, visible: set<ModuleId>, switchAt: nat)
    requires view in s.views
    ensures var s' := AllowMulti(s, view, allow, visible, switchAt);
      s'.signals == s.signals + UsingSignal(s, s', view)
        + (if s.views[view].allowMulti != allow then [AllowMultiVolumeChanged(view, allow)] else [])
  {
  }

  /** The usingMultiVolumeChanged signals in `UsingSignal(..) + extra` are those of UsingSignal. */
  lemma UsingSignalMembership(s: ManagerState, s': ManagerState, view: ViewId, extra: seq<Signal>)
    requires forall b :: UsingMultiVolumeChanged(view, b) !in extra
    ensures (UsingMultiVolumeChanged(view, true) in UsingSignal(s, s', view) + extra) ==
      (!UsingOf(s, view) && UsingOf(s', view))
    ensures (UsingMultiVolumeChanged(view, false) in UsingSignal(s, s', view) + extra) ==
      (UsingOf(s, view) && !UsingOf(s', view))
    ensures forall b :: AllowMultiVolumeChanged(view, b) in UsingSignal(s, s', view) + extra
              <==> AllowMultiVolumeChanged(view, b) in extra
  {
  }

  /** What an event emitted, as a predicate on the signals it appended. */
  predicate SignalsMatch(s: ManagerState, s': ManagerState, e: Event, added: seq<Signal>)
  {
    (UsingMultiVolumeChanged(e.view, true) in added <==> !UsingOf(s, e.view) && UsingOf(s', e.view))
    && (UsingMultiVolumeChanged(e.view, false) in added <==> UsingOf(s, e.view) && !UsingOf(s', e.view))
    && (forall b :: AllowMultiVolumeChanged(e.view, b) in added <==>
          e.Allow? && e.view in s.views && s.views[e.view].allowMulti != e.allow && b == e.allow)
  }

  lemma AddedSignalsMatch(s: ManagerState, view: ViewId, vol: ModuleId, vis: set<ModuleId>, switchAt: nat)
    ensures var s' := Added(s, view, vol, vis, switchAt);
      |s.signals| <= |s'.signals| && SignalsMatch(s, s', Add(view, vol, vis), s'.signals[|s.signals|..])
  {
    var s' := Added(s, view, vol, vis, switchAt);
    AddedSignals(s, view, vol, vis, switchAt);
    var extra := [VolumeCountChanged(view, VolumeCount(s', view))];
    assert s'.signals[|s.signals|..] == UsingSignal(s, s', view) + extra;
    UsingSignalMembership(s, s', view, extra);
  }

  lemma RemovedSignalsMatch(s: ManagerState, view: ViewId, vol: ModuleId, switchAt: nat)
    ensures var s' := Removed(s, view, vol, switchAt);
      |s.signals| <= |s'.signals| && SignalsMatch(s, s', Remove(view, vol), s'.signals[|s.signals|..])
  {
    var s' := Removed(s, view, vol, switchAt);
    if view in s.views {
      RemovedSignals(s, view, vol, switchAt);
      var extra := [VolumeCountChanged(view, VolumeCount(s', view))];
      assert s'.signals[|s.signals|..] == UsingSignal(s, s', view) + extra;
      UsingSignalMembership(s, s', view, extra);
    } else {
      assert s'.signals[|s.signals|..] == [];
    }
  }

  lemma AllowSignalsMatch(s: ManagerState, view: ViewId, allow: bool, vis: set<ModuleId>, switchAt: nat)
    ensures var s' := AllowMulti(s, view, allow, vis, switchAt);
      |s.signals| <= |s'.signals| && SignalsMatch(s, s', Allow(view, allow, vis), s'.signals[|s.signals|..])
  {
    var s' := AllowMulti(s, view, allow, vis, switchAt);
    if view in s.views {
      AllowSignals(s, view, allow, vis, switchAt);
      var extra := if s.views[view].allowMulti != allow then [AllowMultiVolumeChanged(view, allow)] else [];
      assert s'.signals[|s.signals|..] == UsingSignal(s, s', view) + extra;
      UsingSignalMembership(s, s', view, extra);
    } else {
      assert s'.signals[|s.signals|..] == [];
    }
  }

  /**
   * usingMultiVolumeChanged fires only on an actual change of the flag, and
   * carries the new value; allowMultiVolumeChanged fires only when
   * allowMultiVolume(allow, view) changes the allow flag.
   */
  lemma SignalsOnlyOnChange(s: ManagerState, e: Event, switchAt: nat)
    ensures |s.signals| <= |Step(s, e, switchAt).signals|
    ensures SignalsMatch(s, Step(s, e, switchAt), e, NewSignals(s, e, switchAt))
  {
    match e
    case Add(view, vol, vis) => AddedSignalsMatch(s, view, vol, vis, switchAt);
    case Remove(view, vol) => RemovedSignalsMatch(s, view, vol, switchAt);
    case Allow(view, allow, vis) => AllowSignalsMatch(s, view, allow, vis, switchAt);
    case Visibility(view, vol, visible) =>
      assert NewSignals(s, e, switchAt) == [];
  }

  // ---------------------------------------------------------------------
  // The manager object

  /** VolumeManager: the views map and the signal log, changed in place by the event handlers. */
  class VolumeManager {
    var views: map<ViewId, ViewVolumes>
    var signals: seq<Signal>
    /** MULTI_VOLUME_SWITCH (its value is not part of this model). */
    const switchAt: nat

    function Model(): ManagerState
      reads this
    {
      ManagerState(views, signals)
    }

    ghost predicate Inv()
      reads this
    {
      Valid(Model())
    }

    constructor (switchAt: nat)
      ensures Inv() && views == map[] && signals == [] && this.switchAt == switchAt
    {
      this.switchAt := switchAt;
      views := map[];
      signals := [];
    }

    /** multiVolumeOn: walks the view's ports, attaching the visible volumes. */
    method MultiVolumeOn(view: ViewId, visible: set<ModuleId>)
      requires Inv()
      modifies this
      ensures Inv() && Model() == MultiOn(old(Model()), view, visible)
    {
      MultiOnValid(Model(), view, visible);
      if view !in views {
        return;
      }
      var v := views[view];
      var todo := v.ports.Keys;
      var attached := v.attached;
      while todo != {}
        invariant todo <= v.ports.Keys
        invariant attached == v.attached + PortsOf(v, (v.ports.Keys - todo) * visible)
        decreases todo
      {
        var m :| m in todo;
        if m in visible {
          attached := attached + {v.ports[m]};
        }
        todo := todo - {m};
      }
      assert (v.ports.Keys - todo) * visible == visible * v.ports.Keys;
      assert PortsOf(v, visible * v.ports.Keys) == PortsOf(v, visible);
      views := views[view := v.(attached := attached, usingMulti := true)];
      if !v.usingMulti {
        signals := signals + [UsingMultiVolumeChanged(view, true)];
      }
    }

    /** multiVolumeOff: walks the view's ports, detaching every volume. */
    method MultiVolumeOff(view: ViewId)
      requires Inv()
      modifies this
      ensures Inv() && Model() == MultiOff(old(Model()), view)
    {
      MultiOffValid(Model(), view);
      if view !in views {
        return;
      }
      var v := views[view];
      var todo := v.ports.Keys;
      var attached := v.attached;
      while todo != {}
        invariant todo <= v.ports.Keys
        invariant attached == v.attached - PortsOf(v, v.ports.Keys - todo)
        decreases todo
      {
        var m :| m in todo;
        attached := attached - {v.ports[m]};
        todo := todo - {m};
      }
      assert PortsOf(v, v.ports.Keys - todo) == v.ports.Values;
      views := views[view := v.(attached := attached, usingMulti := false)];
      if v.usingMulti {
        signals := signals + [UsingMultiVolumeChanged(view, false)];
      }
    }

    method OnModuleAdded(view: ViewId, vol: ModuleId, visible: set<ModuleId>)
      requires Inv() && Enabled(Model(), Add(view, vol, visible))
      modifies this
      ensures Inv() && Model() == Added(old(Model()), view, vol, visible, switchAt)
    {
      ghost var s0 := Model();
      RegisteredValid(s0, view, vol);
      var v := if view in views then views[view] else NewView();
      v := v.(ports := v.ports[vol := v.currentPort], currentPort := v.currentPort + 1);
      UpdateValid(s0, view, v, signals);
      views := views[view := v];
      if |v.ports| >= switchAt && v.allowMulti {
        MultiVolumeOn(view, visible);
      }
      signals := signals + [VolumeCountChanged(view, |v.ports|)];
      AddedValid(s0, view, vol, visible, switchAt);
      assert Model() == Added(s0, view, vol, visible, switchAt);
    }

    method OnModuleRemoved(view: ViewId, vol: ModuleId)
      requires Inv()
      modifies this
      ensures Inv() && Model() == Removed(old(Model()), view, vol, switchAt)
    {
      if view !in views {
        return;
      }
      ghost var s0 := Model();
      var v := views[view];
      UnregisteredValid(v, vol);
      if vol in v.ports {
        v := v.(ports := v.ports - {vol}, attached := v.attached - {v.ports[vol]});
      }
      UpdateValid(s0, view, v, signals);
      views := views[view := v];
      if |v.ports| < switchAt {
        MultiVolumeOff(view);
      }
      signals := signals + [VolumeCountChanged(view, |v.ports|)];
      RemovedValid(s0, view, vol, switchAt);
    }

    method SetAllowMultiVolume(allow: bool, view: ViewId, visible: set<ModuleId>)
      requires Inv()
      modifies this
      ensures Inv() && Model() == AllowMulti(old(Model()), view, allow, visible, switchAt)
    {
      AllowMultiValid(Model(), view, allow, visible, switchAt);
      if view !in views {
        return;
      }
      var usingMulti := views[view].usingMulti;
      if allow {
        if !usingMulti && |views[view].ports| >= switchAt {
          MultiVolumeOn(view, visible);
        }
      } else if usingMulti {
        MultiVolumeOff(view);
      }
      var v := views[view];
      if v.allowMulti != allow {
        views := views[view := v.(allowMulti := allow)];
        signals := signals + [AllowMultiVolumeChanged(view, allow)];
      }
    }

    method AllowMultiVolume(view: ViewId) returns (r: bool)
      ensures r == AllowMultiQuery(Model(), view)
    {
      if view !in views {
        return true;
      }
      return views[view].usingMulti;
    }

    method Count(view: ViewId) returns (n: nat)
      ensures n == VolumeCount(Model(), view)
    {
      if view !in views {
        return 0;
      }
      return |views[view].ports|;
    }

    method OnVisibilityChanged(view: ViewId, vol: ModuleId, visible: bool)
      requires Inv()
      modifies this
      ensures Inv() && Model() == VisibilityChanged(old(Model()), view, vol, visible)
    {
      VisibilityOnlyInMultiMode(Model(), view, vol, visible);
      if view !in views {
        return;
      }
      var v := views[view];
      if vol !in v.ports {
        return;
      }
      var port := v.ports[vol];
      if v.usingMulti {
        if visible {
          views := views[view := v.(attached := v.attached + {port})];
        } else {
          views := views[view := v.(attached := v.attached - {port})];
        }
      }
    }
  }
}
