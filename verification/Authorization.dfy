/**
 * The registry of controller grants and the store behind it
 * (crates/host-agent/src/authorization.rs, grant_store.rs).
 */
module Authorization {
  import opened Wrappers
  import opened Bytes
  import opened Permissions

  const DEVICE_ID_BYTES := 32
  const GRANT_ID_BYTES := 16
  const GRANT_ID_GENERATION_ATTEMPTS := 16
  const MAX_CONTROLLER_GRANTS := 256

  /** A device identifier is a 32-byte string, compared byte by byte; here it is the number those bytes spell. */
  type DeviceId = nat

  function Spelled(bytes: Octets): DeviceId {
    if bytes == [] then 0 else Spelled(bytes[..|bytes| - 1]) * 256 + bytes[|bytes| - 1] as int
  }

  /** Identifiers of one length are the same exactly when their numbers are. */
  lemma {:induction false} SpelledIsInjective(a: Octets, b: Octets)
    requires |a| == |b| && Spelled(a) == Spelled(b)
    ensures a == b
    decreases |a|
  {
    if a != [] {
      var n := |a| - 1;
      SpelledIsInjective(a[..n], b[..n]);
      assert a == a[..n] + [a[n]] && b == b[..n] + [b[n]];
    }
  }

  datatype Device = Device(deviceId: DeviceId, publicKey: Octets, displayName: string)

  datatype Grant = Grant(grantId: Octets, hostDeviceId: DeviceId, controller: Option<Device>, createdAtMs: U64, permissions: seq<int>)

  /** A grant as it is stored and shown; decoding may leave its parts out. */
  datatype GrantView = GrantView(grant: Option<Grant>, lastConnectionAtMs: U64)

  datatype AuthorizationError =
    | Store | InvalidHostIdentity | HostMismatch | InvalidStoredGrant | DuplicateGrantId | DuplicateController | InvalidController | SelfGrant
    | InvalidPermissions | GrantConflict | GrantLimit | RandomGeneration | GrantNotFound

  // ---- Permissions ----

  /** Any order is accepted and brought into ascending order; input control without viewing is not. */
  function Normalize(permissions: seq<int>): (r: Result<seq<int>, AuthorizationError>)
    ensures r.Ok? ==> IsNormal(r.value)
    ensures r == Ok(permissions) <==> IsNormal(permissions)
  {
    if permissions == [VIEW_SCREEN] then Ok([VIEW_SCREEN])
    else if permissions == [VIEW_SCREEN, CONTROL_INPUT] || permissions == [CONTROL_INPUT, VIEW_SCREEN] then Ok([VIEW_SCREEN, CONTROL_INPUT])
    else Err(InvalidPermissions)
  }

  /** `normalize_stored_permissions`: values go into an ordered set, each at most once. */
  method NormalizeStored(permissions: seq<int>) returns (r: Result<seq<int>, AuthorizationError>)
    ensures r == Normalize(permissions)
  {
    if permissions == [] {
      return Err(InvalidPermissions);
    }
    var normalized: set<int> := {};
    var i := 0;
    while i < |permissions|
      invariant 0 <= i <= |permissions|
      invariant normalized == set p <- permissions[..i]
      invariant normalized <= {VIEW_SCREEN, CONTROL_INPUT} && |normalized| == i
    {
      var value := permissions[i];
      assert permissions[..i + 1] == permissions[..i] + [value];
      if value !in {VIEW_SCREEN, CONTROL_INPUT} || value in normalized {
        NotNormalizable(permissions, i);
        return Err(InvalidPermissions);
      }
      normalized := normalized + {value};
      i := i + 1;
    }
    assert permissions[..i] == permissions;
    AtMostTwo(normalized);
    if CONTROL_INPUT in normalized && VIEW_SCREEN !in normalized {
      assert CONTROL_INPUT in permissions && VIEW_SCREEN !in permissions;
      return Err(InvalidPermissions);
    }
    r := Ok((if VIEW_SCREEN in normalized then [VIEW_SCREEN] else []) + (if CONTROL_INPUT in normalized then [CONTROL_INPUT] else []));
    SmallLists(permissions, normalized);
  }

  /** A list of one or two different permissions, by the set it makes. */
  lemma SmallLists(permissions: seq<int>, normalized: set<int>)
    requires 1 <= |permissions| <= 2 && normalized == (set p <- permissions) && |normalized| == |permissions|
    requires normalized <= {VIEW_SCREEN, CONTROL_INPUT} && (CONTROL_INPUT in normalized ==> VIEW_SCREEN in normalized)
    ensures Normalize(permissions) ==
            Ok((if VIEW_SCREEN in normalized then [VIEW_SCREEN] else []) + (if CONTROL_INPUT in normalized then [CONTROL_INPUT] else []))
  {
    assert permissions[0] in normalized;
    if |permissions| == 1 {
      assert permissions == [permissions[0]];
      assert normalized == {permissions[0]};
      assert permissions[0] == VIEW_SCREEN && CONTROL_INPUT !in normalized;
      assert [VIEW_SCREEN] + [] == [VIEW_SCREEN];
    } else {
      assert permissions == [permissions[0], permissions[1]];
      assert permissions[1] in normalized;
      assert normalized == {permissions[0], permissions[1]};
      PairSize(permissions[0], permissions[1]);
      assert permissions == [VIEW_SCREEN, CONTROL_INPUT] || permissions == [CONTROL_INPUT, VIEW_SCREEN];
      assert [VIEW_SCREEN] + [CONTROL_INPUT] == [VIEW_SCREEN, CONTROL_INPUT];
    }
  }

  lemma NotNormalizable(permissions: seq<int>, i: nat)
    requires i < |permissions|
    requires permissions[i] !in {VIEW_SCREEN, CONTROL_INPUT} || permissions[i] in permissions[..i]
    ensures Normalize(permissions).Err?
  {
  }

  lemma AtMostTwo(s: set<int>)
    requires s <= {VIEW_SCREEN, CONTROL_INPUT}
    ensures |s| <= 2
  {
    assert {VIEW_SCREEN, CONTROL_INPUT} == s + ({VIEW_SCREEN, CONTROL_INPUT} - s);
  }

  // ---- Stored lists ----

  /** `controller_device_id_for`, with the missing identifier below all others. */
  function Key(view: GrantView): int {
    if view.grant.Some? && view.grant.value.controller.Some? then view.grant.value.controller.value.deviceId else -1
  }

  lemma PairSize(a: int, b: int)
    ensures |{a, b}| == if a == b then 1 else 2
  {
    assert a == b ==> {a, b} == {a};
  }

  function GrantIdOf(view: GrantView): Octets {
    if view.grant.Some? then view.grant.value.grantId else []
  }

  predicate Ascending(views: seq<GrantView>) {
    forall i, j | 0 <= i < j < |views| :: Key(views[i]) < Key(views[j])
  }

  /** `validate_stored_grant`; `valid` stands for the checks of a controller's key and identifier. */
  predicate ValidStored(view: GrantView, hostDeviceId: DeviceId, valid: Device -> bool) {
    && view.grant.Some?
    && var grant := view.grant.value;
       && |grant.grantId| == GRANT_ID_BYTES && grant.hostDeviceId == hostDeviceId
       && grant.controller.Some? && valid(grant.controller.value)
       && grant.controller.value.deviceId != hostDeviceId
       && Normalize(grant.permissions) == Ok(grant.permissions)
  }

  type Grants = map<DeviceId, GrantView>

  /** The loop of `load`. */
  function LoadInto(views: seq<GrantView>, hostDeviceId: DeviceId, valid: Device -> bool, ids: set<Octets>, grants: Grants)
    : Result<Grants, AuthorizationError>
    decreases |views|
  {
    if views == [] then Ok(grants)
    else if !ValidStored(views[0], hostDeviceId, valid) then Err(InvalidStoredGrant)
    else if GrantIdOf(views[0]) in ids then Err(DuplicateGrantId)
    else if Key(views[0]) in grants then Err(DuplicateController)
    else LoadInto(views[1..], hostDeviceId, valid, ids + {GrantIdOf(views[0])}, grants[Key(views[0]) := views[0]])
  }

  function Load(views: seq<GrantView>, hostDeviceId: DeviceId, valid: Device -> bool): Result<Grants, AuthorizationError> {
    if |views| > MAX_CONTROLLER_GRANTS then Err(InvalidStoredGrant) else LoadInto(views, hostDeviceId, valid, {}, map[])
  }

  /** The grants in ascending order of controller, each once: what iterating over the ordered map yields. */
  ghost predicate Listing(views: seq<GrantView>, grants: Grants) {
    && Ascending(views)
    && (forall view <- views :: Key(view) in grants && grants[Key(view)] == view)
    && (forall id <- grants :: grants[id] in views && Key(grants[id]) == id)
  }

  predicate DistinctKeys(views: seq<GrantView>) {
    forall i, j | 0 <= i < j < |views| :: Key(views[i]) != Key(views[j])
  }

  /** The same grants in any order, each once: what a store may hold before anything was written to it. */
  ghost predicate Agrees(views: seq<GrantView>, grants: Grants) {
    && DistinctKeys(views)
    && (forall view <- views :: Key(view) in grants && grants[Key(view)] == view)
    && (forall id <- grants :: grants[id] in views && Key(grants[id]) == id)
  }

  /** What every registry keeps: valid grants under their own controller, ids used once, at most 256. */
  ghost predicate WellFormed(grants: Grants, hostDeviceId: DeviceId, valid: Device -> bool) {
    && |grants| <= MAX_CONTROLLER_GRANTS
    && (forall id <- grants :: ValidStored(grants[id], hostDeviceId, valid) && Key(grants[id]) == id)
    && (forall a, b | a in grants && b in grants && a != b :: GrantIdOf(grants[a]) != GrantIdOf(grants[b]))
  }

  /** Valid grants of different controllers and ids, none of them met before. */
  predicate Loadable(views: seq<GrantView>, hostDeviceId: DeviceId, valid: Device -> bool, ids: set<Octets>, before: Grants) {
    && (forall i | 0 <= i < |views| ::
          ValidStored(views[i], hostDeviceId, valid) && Key(views[i]) >= 0 && Key(views[i]) !in before && GrantIdOf(views[i]) !in ids)
    && (forall i, j | 0 <= i < j < |views| :: Key(views[i]) != Key(views[j]) && GrantIdOf(views[i]) != GrantIdOf(views[j]))
  }

  lemma {:induction false} LoadIntoAddsAll(views: seq<GrantView>, hostDeviceId: DeviceId, valid: Device -> bool, ids: set<Octets>, before: Grants)
    requires Loadable(views, hostDeviceId, valid, ids, before)
    ensures var loaded := LoadInto(views, hostDeviceId, valid, ids, before);
            && loaded.Ok?
            && (forall id: DeviceId | id in loaded.value :: (id in before && loaded.value[id] == before[id]) || loaded.value[id] in views)
            && (forall id <- before :: id in loaded.value && loaded.value[id] == before[id])
            && (forall i | 0 <= i < |views| :: Key(views[i]) in loaded.value && loaded.value[Key(views[i])] == views[i])
    decreases |views|
  {
    hide ValidStored;
    hide Key;
    hide GrantIdOf;
    if views != [] {
      var tail, next := views[1..], before[Key(views[0]) := views[0]];
      assert forall i | 0 <= i < |tail| :: tail[i] == views[i + 1];
      LoadIntoAddsAll(tail, hostDeviceId, valid, ids + {GrantIdOf(views[0])}, next);
      var loaded := LoadInto(views, hostDeviceId, valid, ids, before).value;
      assert Key(views[0]) in next && loaded[Key(views[0])] == views[0];
      forall i | 0 <= i < |views|
        ensures Key(views[i]) in loaded && loaded[Key(views[i])] == views[i]
      {
        if i > 0 {
          assert tail[i - 1] == views[i];
        }
      }
    }
  }

  /** Conversely, whatever loads was loadable. */
  lemma {:induction false} LoadedIsLoadable(views: seq<GrantView>, hostDeviceId: DeviceId, valid: Device -> bool, ids: set<Octets>, before: Grants)
    requires LoadInto(views, hostDeviceId, valid, ids, before).Ok?
    ensures Loadable(views, hostDeviceId, valid, ids, before)
    decreases |views|
  {
    hide ValidStored;
    hide Key;
    hide GrantIdOf;
    if views != [] {
      ValidHasKey(views[0], hostDeviceId, valid);
      var tail := views[1..];
      LoadedIsLoadable(tail, hostDeviceId, valid, ids + {GrantIdOf(views[0])}, before[Key(views[0]) := views[0]]);
      assert forall i | 1 <= i < |views| :: views[i] == tail[i - 1];
      assert forall i | 0 <= i < |tail| :: Key(tail[i]) != Key(views[0]) && GrantIdOf(tail[i]) != GrantIdOf(views[0]);
    }
  }

  lemma AgreeingIsLoadable(views: seq<GrantView>, grants: Grants, hostDeviceId: DeviceId, valid: Device -> bool)
    requires Agrees(views, grants) && WellFormed(grants, hostDeviceId, valid)
    ensures Loadable(views, hostDeviceId, valid, {}, map[])
  {
    hide ValidStored;
    hide Key;
    hide GrantIdOf;
    forall i | 0 <= i < |views|
      ensures Key(views[i]) in grants && grants[Key(views[i])] == views[i]
    {
      assert views[i] in views;
    }
  }

  /** What a stored grant must be: complete, for this Host, of another valid device, with its permissions in normal order. */
  lemma StoredIff(view: GrantView, hostDeviceId: DeviceId, valid: Device -> bool)
    ensures ValidStored(view, hostDeviceId, valid) <==>
            && view.grant.Some? && view.grant.value.controller.Some?
            && |view.grant.value.grantId| == 16 && view.grant.value.hostDeviceId == hostDeviceId
            && valid(view.grant.value.controller.value) && view.grant.value.controller.value.deviceId != hostDeviceId
            && (view.grant.value.permissions == [VIEW_SCREEN] || view.grant.value.permissions == [VIEW_SCREEN, CONTROL_INPUT])
  {
  }

  /** What one grant has in common with another that cannot be stored with it. */
  predicate Clash(a: GrantView, b: GrantView) {
    && a.grant.Some? && b.grant.Some?
    && (a.grant.value.grantId == b.grant.value.grantId
        || (a.grant.value.controller.Some? && b.grant.value.controller.Some?
            && a.grant.value.controller.value.deviceId == b.grant.value.controller.value.deviceId))
  }

  /**
   * A snapshot is accepted if and only if it holds at most 256 grants, each valid, no two
   * for one controller or under one identifier.
   */
  lemma LoadIff(views: seq<GrantView>, hostDeviceId: DeviceId, valid: Device -> bool)
    ensures Load(views, hostDeviceId, valid).Ok? <==>
            && |views| <= 256 && (forall view <- views :: ValidStored(view, hostDeviceId, valid))
            && forall i, j | 0 <= i < j < |views| :: !Clash(views[i], views[j])
  {
    var accepted := Load(views, hostDeviceId, valid).Ok?;
    if accepted {
      LoadedIsLoadable(views, hostDeviceId, valid, {}, map[]);
    }
    if |views| <= 256 && Loadable(views, hostDeviceId, valid, {}, map[]) {
      LoadIntoAddsAll(views, hostDeviceId, valid, {}, map[]);
    }
    forall i, j | 0 <= i < j < |views| && ValidStored(views[i], hostDeviceId, valid) && ValidStored(views[j], hostDeviceId, valid)
      ensures Clash(views[i], views[j]) <==> Key(views[i]) == Key(views[j]) || GrantIdOf(views[i]) == GrantIdOf(views[j])
    {
    }
    forall view | view in views && ValidStored(view, hostDeviceId, valid)
      ensures Key(view) >= 0
    {
    }
    hide ValidStored;
    hide Key;
    hide GrantIdOf;
    hide Clash;
    hide LoadInto;
  }

  /** Loading what agrees with a well-formed registry, in any order, always succeeds and gives the same grants. */
  lemma ReloadGivesSameGrants(views: seq<GrantView>, grants: Grants, hostDeviceId: DeviceId, valid: Device -> bool)
    requires Agrees(views, grants) && WellFormed(grants, hostDeviceId, valid)
    ensures Load(views, hostDeviceId, valid) == Ok(grants)
  {
    AgreeingSize(views, grants);
    AgreeingIsLoadable(views, grants, hostDeviceId, valid);
    LoadIntoAddsAll(views, hostDeviceId, valid, {}, map[]);
    var loaded := LoadInto(views, hostDeviceId, valid, {}, map[]).value;
    forall id: DeviceId | id in loaded
      ensures loaded[id] in views && Key(loaded[id]) == id
    {
      LoadedUnderItsKey(views, hostDeviceId, valid, {}, map[], id);
    }
    SameGrants(views, grants, loaded);
    hide Agrees;
    hide ValidStored;
    hide Loadable;
    hide LoadInto;
  }

  /** What loading makes of a list: its grants, each under its own controller. */
  ghost predicate Collects(views: seq<GrantView>, grants: Grants) {
    && (forall id: DeviceId | id in grants :: grants[id] in views && Key(grants[id]) == id)
    && (forall i | 0 <= i < |views| :: Key(views[i]) in grants && grants[Key(views[i])] == views[i])
  }

  lemma LoadCollects(views: seq<GrantView>, hostDeviceId: DeviceId, valid: Device -> bool)
    requires Load(views, hostDeviceId, valid).Ok?
    ensures Loadable(views, hostDeviceId, valid, {}, map[]) && Collects(views, Load(views, hostDeviceId, valid).value)
  {
    var grants := Load(views, hostDeviceId, valid).value;
    LoadedIsLoadable(views, hostDeviceId, valid, {}, map[]);
    LoadIntoAddsAll(views, hostDeviceId, valid, {}, map[]);
    hide Loadable;
    hide LoadInto;
    hide Key;
    forall id: DeviceId | id in grants
      ensures grants[id] in views && Key(grants[id]) == id
    {
      LoadedUnderItsKey(views, hostDeviceId, valid, {}, map[], id);
    }
  }

  lemma CollectedSize(views: seq<GrantView>, grants: Grants)
    requires Collects(views, grants)
    ensures |grants| <= |views|
  {
    hide Key;
    var keys: set<int> := grants.Keys;
    forall id | id in keys
      ensures id in KeysOf(views)
    {
      assert grants[id] in views;
    }
    KeysAtMost(views);
    assert KeysOf(views) == keys + (KeysOf(views) - keys);
    assert |grants| == |grants.Keys|;
  }

  lemma CollectedIsWellFormed(views: seq<GrantView>, grants: Grants, hostDeviceId: DeviceId, valid: Device -> bool)
    requires Loadable(views, hostDeviceId, valid, {}, map[]) && Collects(views, grants) && |views| <= MAX_CONTROLLER_GRANTS
    ensures WellFormed(grants, hostDeviceId, valid) && Agrees(views, grants)
  {
    hide Key;
    hide GrantIdOf;
    hide ValidStored;
    CollectedSize(views, grants);
    forall id | id in grants
      ensures ValidStored(grants[id], hostDeviceId, valid)
    {
      var i :| 0 <= i < |views| && views[i] == grants[id];
    }
    forall a, b | a in grants && b in grants && a != b
      ensures GrantIdOf(grants[a]) != GrantIdOf(grants[b])
    {
      var i :| 0 <= i < |views| && views[i] == grants[a];
      var j :| 0 <= j < |views| && views[j] == grants[b];
      assert i != j;
    }
  }

  /** Whatever snapshot is accepted, sorted or not, gives a well-formed registry that agrees with it. */
  lemma AcceptedSnapshotIsWellFormed(views: seq<GrantView>, hostDeviceId: DeviceId, valid: Device -> bool)
    requires Load(views, hostDeviceId, valid).Ok?
    ensures var grants := Load(views, hostDeviceId, valid).value;
            WellFormed(grants, hostDeviceId, valid) && Agrees(views, grants)
  {
    LoadCollects(views, hostDeviceId, valid);
    CollectedIsWellFormed(views, Load(views, hostDeviceId, valid).value, hostDeviceId, valid);
    hide Loadable;
    hide Collects;
    hide LoadInto;
  }

  lemma SameGrants(views: seq<GrantView>, grants: Grants, loaded: Grants)
    requires Agrees(views, grants)
    requires forall id: DeviceId | id in loaded :: loaded[id] in views && Key(loaded[id]) == id
    requires forall i | 0 <= i < |views| :: Key(views[i]) in loaded && loaded[Key(views[i])] == views[i]
    ensures loaded == grants
  {
    hide Key;
    hide DistinctKeys;
    forall id: DeviceId
      ensures id in loaded <==> id in grants
      ensures id in loaded ==> loaded[id] == grants[id]
    {
      if id in grants {
        var i :| 0 <= i < |views| && views[i] == grants[id];
        assert Key(views[i]) == id;
      }
    }
  }

  lemma {:induction false} LoadedUnderItsKey(views: seq<GrantView>, hostDeviceId: DeviceId, valid: Device -> bool, ids: set<Octets>, before: Grants, id: DeviceId)
    requires LoadInto(views, hostDeviceId, valid, ids, before).Ok? && id in LoadInto(views, hostDeviceId, valid, ids, before).value
    requires forall k <- before :: Key(before[k]) == k
    ensures Key(LoadInto(views, hostDeviceId, valid, ids, before).value[id]) == id
    decreases |views|
  {
    hide ValidStored;
    if views != [] {
      assert Key(views[0]) >= 0 by {
        ValidHasKey(views[0], hostDeviceId, valid);
      }
      LoadedUnderItsKey(views[1..], hostDeviceId, valid, ids + {GrantIdOf(views[0])}, before[Key(views[0]) := views[0]], id);
    }
  }

  lemma ValidHasKey(view: GrantView, hostDeviceId: DeviceId, valid: Device -> bool)
    requires ValidStored(view, hostDeviceId, valid)
    ensures view.grant.Some? && Key(view) >= 0 && Key(view) != hostDeviceId
  {
  }

  function KeysOf(views: seq<GrantView>): set<int> {
    set view <- views :: Key(view)
  }

  lemma {:induction false} KeysAtMost(views: seq<GrantView>)
    ensures |KeysOf(views)| <= |views|
    ensures DistinctKeys(views) ==> |KeysOf(views)| == |views|
    decreases |views|
  {
    hide Key;
    if views != [] {
      var front, last := views[..|views| - 1], views[|views| - 1];
      KeysAtMost(front);
      assert views == front + [last];
      assert KeysOf(views) == KeysOf(front) + {Key(last)};
      if DistinctKeys(views) {
        assert DistinctKeys(front);
        assert forall view <- front :: Key(view) != Key(last);
      }
    }
  }

  lemma AgreeingSize(views: seq<GrantView>, grants: Grants)
    requires Agrees(views, grants)
    ensures |views| <= |grants|
  {
    hide Key;
    KeysAtMost(views);
    var keys: set<int> := grants.Keys;
    assert KeysOf(views) <= keys;
    assert keys == KeysOf(views) + (keys - KeysOf(views));
  }

  lemma ListingAgrees(views: seq<GrantView>, grants: Grants)
    requires Listing(views, grants)
    ensures Agrees(views, grants)
  {
    hide Key;
  }

  // ---- Keeping a list in order ----

  function Insert(views: seq<GrantView>, view: GrantView): seq<GrantView> {
    if views == [] || Key(views[|views| - 1]) <= Key(view) then views + [view]
    else Insert(views[..|views| - 1], view) + [views[|views| - 1]]
  }

  /** `sort_grants`: a stable sort by controller. */
  function SortGrants(views: seq<GrantView>): seq<GrantView> {
    if views == [] then [] else Insert(SortGrants(views[..|views| - 1]), views[|views| - 1])
  }

  /** A list in order, one element longer. */
  lemma AscendingSplit(front: seq<GrantView>, last: GrantView)
    ensures Ascending(front + [last]) <==> Ascending(front) && forall v <- front :: Key(v) < Key(last)
  {
    hide Key;
    var views := front + [last];
    assert forall i | 0 <= i < |front| :: views[i] == front[i] && front[i] in front;
    assert views[|front|] == last;
    if Ascending(views) {
      forall v | v in front
        ensures Key(v) < Key(last)
      {
        var i :| 0 <= i < |front| && front[i] == v;
        assert Key(views[i]) < Key(views[|front|]);
      }
    }
  }

  lemma {:induction false} SortedStays(views: seq<GrantView>)
    requires Ascending(views)
    ensures SortGrants(views) == views
    decreases |views|
  {
    hide Key;
    hide Ascending;
    if views != [] {
      var front, last := views[..|views| - 1], views[|views| - 1];
      assert views == front + [last];
      AscendingSplit(front, last);
      InsertAtEnd(front, last);
      hide Insert;
      SortedStays(front);
    }
  }

  lemma InsertAtEnd(views: seq<GrantView>, view: GrantView)
    requires forall v <- views :: Key(v) < Key(view)
    ensures Insert(views, view) == views + [view]
  {
    assert views != [] ==> views[|views| - 1] in views;
  }

  lemma {:induction false} InsertKeepsOrder(views: seq<GrantView>, view: GrantView)
    requires Ascending(views)
    requires forall v <- views :: Key(v) != Key(view)
    ensures var next := Insert(views, view);
            && Ascending(next)
            && (forall v :: v in next <==> v in views || v == view)
    decreases |views|
  {
    hide Key;
    hide Ascending;
    if views == [] || Key(views[|views| - 1]) <= Key(view) {
      if views != [] {
        AscendingSplit(views[..|views| - 1], views[|views| - 1]);
        assert views == views[..|views| - 1] + [views[|views| - 1]];
      }
      AscendingSplit(views, view);
    } else {
      var front, last := views[..|views| - 1], views[|views| - 1];
      assert views == front + [last];
      AscendingSplit(front, last);
      InsertKeepsOrder(front, view);
      AscendingSplit(Insert(front, view), last);
    }
  }

  lemma AddedLists(views: seq<GrantView>, grants: Grants, view: GrantView, next: seq<GrantView>)
    requires Listing(views, grants) && Key(view) >= 0 && Key(view) !in grants
    requires Ascending(next) && forall v :: v in next <==> v in views || v == view
    ensures Listing(next, grants[Key(view) := view])
  {
    hide Ascending;
    hide Key;
  }

  /** Appending a new controller's grant and sorting lists the extended grants. */
  lemma CreateLists(views: seq<GrantView>, grants: Grants, view: GrantView)
    requires Listing(views, grants) && Key(view) >= 0 && Key(view) !in grants
    ensures Listing(SortGrants(views + [view]), grants[Key(view) := view])
  {
    hide Key;
    SortedStays(views);
    assert (views + [view])[..|views|] == views;
    assert SortGrants(views + [view]) == Insert(views, view);
    hide SortGrants;
    hide Insert;
    InsertKeepsOrder(views, view);
    AddedLists(views, grants, view, Insert(views, view));
    hide Listing;
  }

  lemma ReplaceLists(views: seq<GrantView>, grants: Grants, at: nat, view: GrantView)
    requires Listing(views, grants) && at < |views| && Key(views[at]) == Key(view) >= 0
    ensures Listing(views[at := view], grants[Key(view) := view])
  {
    var next, after := views[at := view], grants[Key(view) := view];
    assert next[at] == view;
    forall id | id in after
      ensures after[id] in next && Key(after[id]) == id
    {
      if id != Key(view) {
        var i :| 0 <= i < |views| && views[i] == grants[id];
        assert next[i] == grants[id];
      }
    }
  }

  function Without(views: seq<GrantView>, id: DeviceId): seq<GrantView> {
    if views == [] then []
    else Without(views[..|views| - 1], id) + (if Key(views[|views| - 1]) != id then [views[|views| - 1]] else [])
  }

  lemma {:induction false} WithoutKeepsOrder(views: seq<GrantView>, id: DeviceId)
    requires Ascending(views)
    ensures var next := Without(views, id);
            && Ascending(next)
            && (forall v :: v in next <==> v in views && Key(v) != id)
    decreases |views|
  {
    hide Key;
    hide Ascending;
    if views == [] {
      assert Without(views, id) == views;
    } else {
      var front, last := views[..|views| - 1], views[|views| - 1];
      assert views == front + [last];
      AscendingSplit(front, last);
      WithoutKeepsOrder(front, id);
      AscendingSplit(Without(front, id), last);
      assert Without(front, id) + [] == Without(front, id);
    }
  }

  lemma RevokeLists(views: seq<GrantView>, grants: Grants, id: DeviceId)
    requires Listing(views, grants) && id in grants
    ensures Listing(Without(views, id), grants - {id})
  {
    WithoutKeepsOrder(views, id);
  }

  // ---- The store ----

  /** `MemoryGrantStore`: a persist that fails leaves the snapshot as it was.  `writes` is the outcome of every persist. */
  class MemoryGrantStore {
    var snapshot: Option<(DeviceId, seq<GrantView>)>
    ghost var writes: seq<bool>

    constructor (snapshot: Option<(DeviceId, seq<GrantView>)>)
      ensures this.snapshot == snapshot && writes == []
    {
      this.snapshot := snapshot;
      writes := [];
    }

    function Contents(): seq<GrantView>
      reads this
    {
      if snapshot.Some? then snapshot.value.1 else []
    }

    method Load(hostDeviceId: DeviceId) returns (r: Result<seq<GrantView>, AuthorizationError>)
      ensures r == if snapshot.Some? && snapshot.value.0 != hostDeviceId then Err(HostMismatch) else Ok(Contents())
    {
      if snapshot.Some? && snapshot.value.0 != hostDeviceId {
        return Err(HostMismatch);
      }
      r := Ok(Contents());
    }

    /** Injected failures and oversized snapshots are both possible. */
    method Persist(hostDeviceId: DeviceId, views: seq<GrantView>) returns (ok: bool)
      modifies this
      ensures snapshot == if ok then Some((hostDeviceId, views)) else old(snapshot)
      ensures writes == old(writes) + [ok]
    {
      ok := *;
      writes := writes + [ok];
      if ok {
        snapshot := Some((hostDeviceId, views));
      }
    }
  }

  // ---- The registry ----

  /** The grant `create` makes, without its random identifier. */
  predicate IsNewGrant(view: GrantView, hostDeviceId: DeviceId, controller: Device, permissions: seq<int>, nowMs: U64) {
    && view.lastConnectionAtMs == 0 && view.grant.Some?
    && view.grant.value == Grant(view.grant.value.grantId, hostDeviceId, Some(controller), nowMs, permissions)
  }

  predicate SameGrant(view: GrantView, controller: Device, permissions: seq<int>) {
    view.grant.Some? && view.grant.value.controller == Some(controller) && view.grant.value.permissions == permissions
  }

  type GrantId = id: Octets | |id| == GRANT_ID_BYTES witness seq(GRANT_ID_BYTES, _ => 0)

  /** What the random source yields at each draw of one call; `None` where it fails. */
  type Draws = nat -> Option<GrantId>

  predicate InUse(grants: Grants, id: Octets) {
    exists c <- grants.Keys :: GrantIdOf(grants[c]) == id
  }

  function FirstFree(draws: Draws, grants: Grants, attempt: nat): Option<GrantId>
    decreases GRANT_ID_GENERATION_ATTEMPTS - attempt
  {
    if attempt >= GRANT_ID_GENERATION_ATTEMPTS || draws(attempt).None? then None
    else if InUse(grants, draws(attempt).value) then FirstFree(draws, grants, attempt + 1)
    else draws(attempt)
  }

  /** All draws before `k` were made and were in use. */
  predicate AllTaken(draws: Draws, grants: Grants, attempt: nat, k: nat) {
    forall j: nat | attempt <= j < k :: draws(j).Some? && InUse(grants, draws(j).value)
  }

  /**
   * An identifier is given if and only if some draw within the sixteen is not in use and
   * every draw before it was; it is that draw.
   */
  lemma {:induction false} FirstFreeIff(draws: Draws, grants: Grants, attempt: nat, id: GrantId)
    ensures FirstFree(draws, grants, attempt) == Some(id) <==>
            exists k: nat ::
              && attempt <= k < GRANT_ID_GENERATION_ATTEMPTS && draws(k) == Some(id) && !InUse(grants, id)
              && AllTaken(draws, grants, attempt, k)
    decreases GRANT_ID_GENERATION_ATTEMPTS - attempt
  {
    hide InUse;
    if attempt < GRANT_ID_GENERATION_ATTEMPTS {
      if draws(attempt).Some? && InUse(grants, draws(attempt).value) {
        FirstFreeIff(draws, grants, attempt + 1, id);
        assert forall k: nat | k > attempt :: AllTaken(draws, grants, attempt, k) <==> AllTaken(draws, grants, attempt + 1, k);
      } else if draws(attempt) == Some(id) {
        assert AllTaken(draws, grants, attempt, attempt);
      }
    }
  }

  lemma FreeIsFree(draws: Draws, grants: Grants, attempt: nat)
    ensures var id := FirstFree(draws, grants, attempt); id.Some? ==> !InUse(grants, id.value)
    decreases GRANT_ID_GENERATION_ATTEMPTS - attempt
  {
  }

  class AuthorizationRegistry {
    const hostDeviceId: DeviceId
    const valid: Device -> bool
    const store: MemoryGrantStore
    var grants: Grants

    /** Memory and store agree, in whatever order the store holds the grants, and are well formed. */
    ghost predicate Valid()
      reads this, store
    {
      && WellFormed(grants, hostDeviceId, valid)
      && Agrees(store.Contents(), grants)
      && (store.snapshot.Some? ==> store.snapshot.value.0 == hostDeviceId)
    }

    constructor (hostDeviceId: DeviceId, valid: Device -> bool, store: MemoryGrantStore, grants: Grants)
      requires WellFormed(grants, hostDeviceId, valid) && Agrees(store.Contents(), grants)
      requires store.snapshot.Some? ==> store.snapshot.value.0 == hostDeviceId
      ensures Valid() && this.grants == grants && this.hostDeviceId == hostDeviceId && this.valid == valid && this.store == store
    {
      this.hostDeviceId, this.valid, this.store, this.grants := hostDeviceId, valid, store, grants;
    }

    /** All grants in ascending order of controller. */
    method ListControllerGrants() returns (views: seq<GrantView>)
      requires Valid()
      ensures Listing(views, grants)
    {
      hide Listing;
      hide Key;
      hide GrantIdOf;
      hide ValidStored;
      hide Agrees;
      var rest := grants.Keys;
      views := [];
      EmptyListing();
      assert grants - rest == map[];
      while rest != {}
        invariant rest <= grants.Keys && Listing(views, grants - rest)
        invariant forall view <- views, id <- rest :: Key(view) < id
        decreases rest
      {
        Least(rest);
        var id :| IsLeast(id, rest);
        AppendLists(views, grants - rest, id, grants[id]);
        views := views + [grants[id]];
        assert grants - (rest - {id}) == (grants - rest)[id := grants[id]];
        rest := rest - {id};
      }
      assert grants - rest == grants;
    }

    /** An identical grant is returned as it is; a different one for the same controller is refused. */
    method Create(controller: Device, permissions: seq<int>, nowMs: U64, draws: Draws) returns (r: Result<GrantView, AuthorizationError>)
      requires Valid()
      modifies this`grants, store
      ensures Valid() && (store.Contents() == old(store.Contents()) || Listing(store.Contents(), grants))
      ensures r.Err? ==> grants == old(grants) && store.Contents() == old(store.Contents())
      ensures store.writes == old(store.writes) + (if r == Err(Store) then [false] else if grants != old(grants) then [true] else [])
      ensures !valid(controller) ==> r == Err(InvalidController)
      ensures valid(controller) && controller.deviceId == hostDeviceId ==> r == Err(SelfGrant)
      ensures valid(controller) && controller.deviceId != hostDeviceId && Normalize(permissions).Err? ==> r == Err(InvalidPermissions)
      ensures valid(controller) && controller.deviceId != hostDeviceId && Normalize(permissions).Ok? ==>
                var id, normalized := controller.deviceId, Normalize(permissions).value;
                if id in old(grants) then
                  && grants == old(grants)
                  && r == if SameGrant(old(grants)[id], controller, normalized) then Ok(old(grants)[id]) else Err(GrantConflict)
                else if |old(grants)| >= MAX_CONTROLLER_GRANTS then r == Err(GrantLimit)
                else if FirstFree(draws, old(grants), 0).None? then r == Err(RandomGeneration)
                else if r.Ok? then
                  && GrantIdOf(r.value) == FirstFree(draws, old(grants), 0).value
                  && grants == old(grants)[id := r.value] && IsNewGrant(r.value, hostDeviceId, controller, normalized, nowMs)
                else r == Err(Store)
    {
      if !valid(controller) {
        return Err(InvalidController);
      }
      if controller.deviceId == hostDeviceId {
        return Err(SelfGrant);
      }
      var normalized := NormalizeStored(permissions);
      if normalized.Err? {
        return Err(normalized.error);
      }
      hide Listing;
      hide Agrees;
      if controller.deviceId in grants {
        var existing := grants[controller.deviceId];
        if SameGrant(existing, controller, normalized.value) {
          return Ok(existing);
        }
        return Err(GrantConflict);
      }
      hide WellFormed;
      if |grants| >= MAX_CONTROLLER_GRANTS {
        return Err(GrantLimit);
      }
      var id := GenerateGrantId(draws);
      FreeIsFree(draws, grants, 0);
      if id.None? {
        return Err(RandomGeneration);
      }
      var view := GrantView(Some(Grant(id.value, hostDeviceId, Some(controller), nowMs, normalized.value)), 0);
      CreatedIsWellFormed(grants, hostDeviceId, valid, view, controller.deviceId);
      var next := ListControllerGrants();
      CreateLists(next, grants, view);
      hide SortGrants;
      next := SortGrants(next + [view]);
      ListingAgrees(next, grants[controller.deviceId := view]);
      var stored := store.Persist(hostDeviceId, next);
      if !stored {
        return Err(Store);
      }
      grants := grants[controller.deviceId := view];
      r := Ok(view);
    }

    /** Sixteen draws at most; the first that is not in use. */
    method GenerateGrantId(draws: Draws) returns (id: Option<GrantId>)
      requires Valid()
      ensures id == FirstFree(draws, grants, 0)
    {
      hide WellFormed;
      hide Agrees;
      hide GrantIdOf;
      var attempt := 0;
      while attempt < GRANT_ID_GENERATION_ATTEMPTS
        invariant attempt <= GRANT_ID_GENERATION_ATTEMPTS && FirstFree(draws, grants, 0) == FirstFree(draws, grants, attempt)
      {
        var drawn := draws(attempt);
        if drawn.None? {
          return None;
        }
        if !InUse(grants, drawn.value) {
          return drawn;
        }
        attempt := attempt + 1;
      }
      id := None;
    }

    /** Only a later time is recorded. */
    method RecordAuthenticatedSession(controllerDeviceId: DeviceId, atMs: U64) returns (r: Result<GrantView, AuthorizationError>)
      requires Valid()
      modifies this`grants, store
      ensures Valid() && (store.Contents() == old(store.Contents()) || Listing(store.Contents(), grants))
      ensures r.Err? ==> grants == old(grants) && store.Contents() == old(store.Contents())
      ensures store.writes == old(store.writes) + (if r == Err(Store) then [false] else if grants != old(grants) then [true] else [])
      ensures r == Err(GrantNotFound) <==> controllerDeviceId !in old(grants)
      ensures r.Err? ==> r.error in {GrantNotFound, Store}
      ensures r.Ok? ==>
                && r.value == (if atMs > old(grants)[controllerDeviceId].lastConnectionAtMs
                               then old(grants)[controllerDeviceId].(lastConnectionAtMs := atMs) else old(grants)[controllerDeviceId])
                && grants == old(grants)[controllerDeviceId := r.value]
    {
      hide Agrees;
      if controllerDeviceId !in grants {
        return Err(GrantNotFound);
      }
      var existing := grants[controllerDeviceId];
      if atMs <= existing.lastConnectionAtMs {
        assert grants == grants[controllerDeviceId := existing];
        return Ok(existing);
      }
      var updated := existing.(lastConnectionAtMs := atMs);
      var next := ListControllerGrants();
      hide ValidStored;
      var at := FindController(next, grants, controllerDeviceId);
      assert Key(existing) == controllerDeviceId && Key(updated) == controllerDeviceId;
      ReplaceLists(next, grants, at, updated);
      next := next[at := updated];
      ListingAgrees(next, grants[controllerDeviceId := updated]);
      var stored := store.Persist(hostDeviceId, next);
      if !stored {
        return Err(Store);
      }
      UpdatedIsWellFormed(grants, hostDeviceId, valid, controllerDeviceId, atMs);
      grants := grants[controllerDeviceId := updated];
      r := Ok(updated);
    }

    method Revoke(grantId: Octets) returns (r: Result<GrantView, AuthorizationError>)
      requires Valid()
      modifies this`grants, store
      ensures Valid() && (store.Contents() == old(store.Contents()) || Listing(store.Contents(), grants))
      ensures r.Err? ==> grants == old(grants) && store.Contents() == old(store.Contents())
      ensures store.writes == old(store.writes) + (if r == Err(Store) then [false] else if grants != old(grants) then [true] else [])
      ensures r.Err? ==> r.error in {GrantNotFound, Store}
      ensures r == Err(GrantNotFound) <==> forall c <- old(grants) :: GrantIdOf(old(grants)[c]) != grantId
      ensures r.Ok? ==>
                && GrantIdOf(r.value) == grantId && Key(r.value) in old(grants) && old(grants)[Key(r.value)] == r.value
                && grants == old(grants) - {Key(r.value)}
    {
      hide Listing;
      hide Agrees;
      hide Key;
      hide GrantIdOf;
      hide ValidStored;
      hide Without;
      if forall c <- grants.Keys :: GrantIdOf(grants[c]) != grantId {
        return Err(GrantNotFound);
      }
      var controllerId :| controllerId in grants.Keys && GrantIdOf(grants[controllerId]) == grantId;
      var revoked := grants[controllerId];
      RevokedIsWellFormed(grants, hostDeviceId, valid, controllerId);
      var next := ListControllerGrants();
      RevokeLists(next, grants, controllerId);
      next := Without(next, controllerId);
      ListingAgrees(next, grants - {controllerId});
      var stored := store.Persist(hostDeviceId, next);
      if !stored {
        return Err(Store);
      }
      grants := grants - {controllerId};
      r := Ok(revoked);
    }
  }

  method FindController(views: seq<GrantView>, grants: Grants, id: DeviceId) returns (at: nat)
    requires Listing(views, grants) && id in grants
    ensures at < |views| && Key(views[at]) == id
  {
    hide Key;
    ghost var there: nat :| there < |views| && views[there] == grants[id];
    at := 0;
    while Key(views[at]) != id
      invariant at <= there
    {
      at := at + 1;
    }
  }

  /** `load`: the stored grants are validated one by one, the first fault deciding. */
  method LoadRegistry(hostIdentifier: Octets, valid: Device -> bool, store: MemoryGrantStore)
    returns (r: Result<AuthorizationRegistry, AuthorizationError>)
    ensures |hostIdentifier| != DEVICE_ID_BYTES ==> r == Err(InvalidHostIdentity)
    ensures |hostIdentifier| == DEVICE_ID_BYTES ==>
              var hostDeviceId := Spelled(hostIdentifier);
              if store.snapshot.Some? && store.snapshot.value.0 != hostDeviceId then r == Err(HostMismatch)
              else
                match Load(store.Contents(), hostDeviceId, valid)
                case Err(error) => r == Err(error)
                case Ok(grants) =>
                  && r.Ok? && fresh(r.value) && r.value.Valid() && r.value.grants == grants
                  && r.value.store == store && r.value.hostDeviceId == hostDeviceId && r.value.valid == valid
  {
    hide ValidStored;
    hide Agrees;
    hide WellFormed;
    if |hostIdentifier| != DEVICE_ID_BYTES {
      return Err(InvalidHostIdentity);
    }
    var hostDeviceId := Spelled(hostIdentifier);
    var loaded := store.Load(hostDeviceId);
    if loaded.Err? {
      return Err(loaded.error);
    }
    var views := loaded.value;
    if |views| > MAX_CONTROLLER_GRANTS {
      return Err(InvalidStoredGrant);
    }
    var ids: set<Octets>, grants: Grants := {}, map[];
    var i := 0;
    assert views[0..] == views;
    while i < |views|
      invariant 0 <= i <= |views|
      invariant LoadInto(views, hostDeviceId, valid, {}, map[]) == LoadInto(views[i..], hostDeviceId, valid, ids, grants)
    {
      var view := views[i];
      assert views[i..][0] == view && views[i..][1..] == views[i + 1..];
      if !ValidStored(view, hostDeviceId, valid) {
        return Err(InvalidStoredGrant);
      }
      if GrantIdOf(view) in ids {
        return Err(DuplicateGrantId);
      }
      ValidHasKey(view, hostDeviceId, valid);
      if Key(view) in grants {
        return Err(DuplicateController);
      }
      ids, grants := ids + {GrantIdOf(view)}, grants[Key(view) := view];
      i := i + 1;
    }
    AcceptedSnapshotIsWellFormed(views, hostDeviceId, valid);
    var registry := new AuthorizationRegistry(hostDeviceId, valid, store, grants);
    r := Ok(registry);
  }

  lemma EmptyListing()
    ensures Listing([], map[])
  {
  }

  lemma AppendLists(views: seq<GrantView>, part: Grants, id: DeviceId, view: GrantView)
    requires Listing(views, part) && Key(view) == id && id !in part && forall v <- views :: Key(v) < id
    ensures Listing(views + [view], part[id := view])
  {
    hide Key;
    var next, after := views + [view], part[id := view];
    assert next[|views|] == view;
    assert forall i | 0 <= i < |views| :: views[i] in views && next[i] == views[i];
    forall k | k in after
      ensures after[k] in next && Key(after[k]) == k
    {
    }
  }

  predicate IsLeast(id: DeviceId, ids: set<DeviceId>) {
    id in ids && forall other <- ids :: id <= other
  }

  lemma Least(ids: set<DeviceId>)
    requires ids != {}
    ensures exists id :: IsLeast(id, ids)
    decreases |ids|
  {
    var some :| some in ids;
    var rest := ids - {some};
    if rest == {} {
      assert ids == {some};
      assert IsLeast(some, ids);
    } else {
      Least(rest);
      var low :| IsLeast(low, rest);
      assert ids == rest + {some};
      assert IsLeast(if low < some then low else some, ids);
    }
  }

  lemma {:induction false} ListingIsUnique(a: seq<GrantView>, b: seq<GrantView>, grants: Grants)
    requires Listing(a, grants) && Listing(b, grants)
    ensures a == b
    decreases |a|
  {
    hide Listing;
    hide Key;
    EmptyIsListed(a, grants);
    EmptyIsListed(b, grants);
    if a != [] {
      var x, y := a[|a| - 1], b[|b| - 1];
      LastIsGreatest(a, grants);
      LastIsGreatest(b, grants);
      assert x == y;
      FrontLists(a, grants);
      FrontLists(b, grants);
      ListingIsUnique(a[..|a| - 1], b[..|b| - 1], grants - {Key(x)});
      assert a == a[..|a| - 1] + [x] && b == b[..|b| - 1] + [y];
    }
  }

  lemma EmptyIsListed(views: seq<GrantView>, grants: Grants)
    requires Listing(views, grants)
    ensures views == [] <==> grants == map[]
  {
    hide Key;
    if views != [] {
      assert views[0] in views;
    }
  }

  lemma LastIsGreatest(views: seq<GrantView>, grants: Grants)
    requires Listing(views, grants) && views != []
    ensures forall id <- grants :: id <= Key(views[|views| - 1])
    ensures Key(views[|views| - 1]) in grants && grants[Key(views[|views| - 1])] == views[|views| - 1]
  {
    hide Key;
    assert views[|views| - 1] in views;
    forall id | id in grants
      ensures id <= Key(views[|views| - 1])
    {
      var i :| 0 <= i < |views| && views[i] == grants[id];
    }
  }

  lemma FrontLists(views: seq<GrantView>, grants: Grants)
    requires Listing(views, grants) && views != []
    ensures Listing(views[..|views| - 1], grants - {Key(views[|views| - 1])})
  {
    hide Key;
    var front, last := views[..|views| - 1], views[|views| - 1];
    var rest := grants - {Key(last)};
    forall view | view in front
      ensures Key(view) in rest && rest[Key(view)] == view
    {
      var i :| 0 <= i < |front| && front[i] == view;
      assert views[i] == view && view in views;
    }
    forall id | id in rest
      ensures rest[id] in front && Key(rest[id]) == id
    {
      var i :| 0 <= i < |views| && views[i] == grants[id];
      assert i < |front| ==> front[i] == rest[id];
    }
  }

  lemma CreatedIsWellFormed(grants: Grants, hostDeviceId: DeviceId, valid: Device -> bool, view: GrantView, id: DeviceId)
    requires WellFormed(grants, hostDeviceId, valid) && |grants| < MAX_CONTROLLER_GRANTS
    requires ValidStored(view, hostDeviceId, valid) && Key(view) == id && id !in grants
    requires forall c <- grants :: GrantIdOf(grants[c]) != GrantIdOf(view)
    ensures WellFormed(grants[id := view], hostDeviceId, valid)
  {
    hide ValidStored;
    hide Key;
    hide GrantIdOf;
    var after := grants[id := view];
    assert |after| == |grants| + 1 by {
      assert after.Keys == grants.Keys + {id};
    }
    forall a, b | a in after && b in after && a != b
      ensures GrantIdOf(after[a]) != GrantIdOf(after[b])
    {
    }
  }

  lemma UpdatedIsWellFormed(grants: Grants, hostDeviceId: DeviceId, valid: Device -> bool, id: DeviceId, atMs: U64)
    requires WellFormed(grants, hostDeviceId, valid) && id in grants
    ensures WellFormed(grants[id := grants[id].(lastConnectionAtMs := atMs)], hostDeviceId, valid)
  {
    var updated := grants[id].(lastConnectionAtMs := atMs);
    assert ValidStored(updated, hostDeviceId, valid) && Key(updated) == id && GrantIdOf(updated) == GrantIdOf(grants[id]);
    hide ValidStored;
    hide Key;
    hide GrantIdOf;
    var after := grants[id := updated];
    assert |after| == |grants| by {
      assert after.Keys == grants.Keys;
    }
    forall a, b | a in after && b in after && a != b
      ensures GrantIdOf(after[a]) != GrantIdOf(after[b])
    {
    }
  }

  lemma RevokedIsWellFormed(grants: Grants, hostDeviceId: DeviceId, valid: Device -> bool, id: DeviceId)
    requires WellFormed(grants, hostDeviceId, valid) && id in grants
    ensures WellFormed(grants - {id}, hostDeviceId, valid)
  {
    hide ValidStored;
    hide Key;
    hide GrantIdOf;
    assert grants.Keys == (grants - {id}).Keys + {id};
    assert |grants - {id}| == |(grants - {id}).Keys| && |grants| == |grants.Keys|;
  }

  // ---- Whole runs ----

  datatype Op =
    | CreateOp(controller: Device, permissions: seq<int>, nowMs: U64, draws: Draws)
    | RecordOp(controllerDeviceId: DeviceId, atMs: U64)
    | RevokeOp(grantId: Octets)

  /** What a call may do to the grants: nothing, or exactly the one change it stands for. */
  ghost predicate MayChange(hostDeviceId: DeviceId, op: Op, before: Grants, after: Grants) {
    || after == before
    || match op
       case CreateOp(controller, permissions, nowMs, draws) =>
         var id := controller.deviceId;
         && id !in before && |before| < MAX_CONTROLLER_GRANTS && id in after && after == before[id := after[id]]
         && Normalize(permissions).Ok? && IsNewGrant(after[id], hostDeviceId, controller, Normalize(permissions).value, nowMs)
         && Some(GrantIdOf(after[id])) == FirstFree(draws, before, 0)
       case RecordOp(id, atMs) =>
         && id in before && atMs > before[id].lastConnectionAtMs
         && after == before[id := before[id].(lastConnectionAtMs := atMs)]
       case RevokeOp(grantId) =>
         exists c <- before :: GrantIdOf(before[c]) == grantId && after == before - {c}
  }

  method Perform(registry: AuthorizationRegistry, op: Op)
    requires registry.Valid()
    modifies registry`grants, registry.store
    ensures registry.Valid() && MayChange(registry.hostDeviceId, op, old(registry.grants), registry.grants)
  {
    match op
    case CreateOp(controller, permissions, nowMs, draws) =>
      var _ := registry.Create(controller, permissions, nowMs, draws);
    case RecordOp(id, atMs) =>
      var _ := registry.RecordAuthenticatedSession(id, atMs);
    case RevokeOp(id) =>
      var _ := registry.Revoke(id);
  }

  /**
   * From any snapshot the source accepts, in any order, and after any sequence of creations,
   * records and revocations, whichever persists fail: `history` holds the grants after
   * loading and after each call, every call changed them as it may, the store agrees with
   * the registry, and loading it again succeeds with the same grants.
   */
  method Drive(hostIdentifier: Octets, valid: Device -> bool, snapshot: Option<(DeviceId, seq<GrantView>)>, ops: seq<Op>)
    returns (first: Result<AuthorizationRegistry, AuthorizationError>, reloaded: Result<AuthorizationRegistry, AuthorizationError>,
             ghost history: seq<Grants>)
    ensures first.Ok? <==> |hostIdentifier| == DEVICE_ID_BYTES
                           && (snapshot.None? || snapshot.value.0 == Spelled(hostIdentifier))
                           && Load(if snapshot.Some? then snapshot.value.1 else [], Spelled(hostIdentifier), valid).Ok?
    ensures first.Err? ==> reloaded == first
    ensures first.Ok? ==>
              && |history| == |ops| + 1
              && Load(if snapshot.Some? then snapshot.value.1 else [], Spelled(hostIdentifier), valid) == Ok(history[0])
              && history[|ops|] == first.value.grants
              && forall i | 0 <= i < |ops| :: MayChange(Spelled(hostIdentifier), ops[i], history[i], history[i + 1])
    ensures first.Ok? ==>
              && first.value.Valid() && WellFormed(first.value.grants, Spelled(hostIdentifier), valid)
              && reloaded.Ok? && reloaded.value.Valid() && reloaded.value.grants == first.value.grants
              && reloaded.value != first.value && reloaded.value.store == first.value.store
  {
    hide MayChange;
    hide Spelled;
    var hostDeviceId := Spelled(hostIdentifier);
    var store := new MemoryGrantStore(snapshot);
    first := LoadRegistry(hostIdentifier, valid, store);
    reloaded, history := first, [];
    if first.Err? {
      return;
    }
    var registry := first.value;
    history := [registry.grants];
    var done := 0;
    while done < |ops|
      invariant registry.Valid() && fresh(registry) && fresh(registry.store)
      invariant registry.hostDeviceId == hostDeviceId && registry.valid == valid && registry.store == store
      invariant |history| == done + 1 <= |ops| + 1 && history[done] == registry.grants
      invariant Load(if snapshot.Some? then snapshot.value.1 else [], hostDeviceId, valid) == Ok(history[0])
      invariant forall i | 0 <= i < done :: MayChange(hostDeviceId, ops[i], history[i], history[i + 1])
    {
      Perform(registry, ops[done]);
      history := history + [registry.grants];
      done := done + 1;
    }
    ReloadGivesSameGrants(store.Contents(), registry.grants, hostDeviceId, valid);
    reloaded := LoadRegistry(hostIdentifier, valid, store);
  }
}
