/**
 * The match-management hook of the event-matches page. It maps profile ids
 * (strings) to the small integer player ids the queue manager works with, and
 * wraps the manager's mutating calls with persistence of the event's
 * `matches_state`, rolling the manager back when recording a result fails.
 *
 * The queue manager itself is opaque here: a court count and a state value
 * of type `S` that it can save and reload. Whatever the manager or the
 * database answers is a parameter of the operation that asks.
 */
module MatchManagement {
  import opened Common

  /** The persisted `playerMap`: profile id to player id. */
  type PlayerMap = map<string, int>

  /** A profile counts as mapped when its entry is truthy: a missing key and an id of 0 are both unmapped. */
  predicate IsMapped(m: PlayerMap, profile: string) {
    profile in m && m[profile] != 0
  }

  /** Every id the hook hands out is positive; the empty map qualifies. */
  predicate WellFormed(m: PlayerMap) {
    forall k :: k in m ==> m[k] >= 1
  }

  /** No two profiles share a player id. */
  predicate Injective(m: PlayerMap) {
    forall a, b :: a in m && b in m && a != b ==> m[a] != m[b]
  }

  lemma ValuesOfNonEmpty(m: PlayerMap)
    requires |m| > 0
    ensures m.Values != {}
  {
    if forall k :: k !in m {
      assert false;
    }
    var k :| k in m;
    assert m[k] in m.Values;
  }

  /** `getNextPlayerId`: 1 for an empty map, otherwise one more than the largest id in use. */
  function NextPlayerId(m: PlayerMap): (r: int)
    ensures |m| == 0 ==> r == 1
    ensures |m| > 0 ==> r - 1 in m.Values
    ensures forall k :: k in m ==> m[k] < r
  {
    if |m| == 0 then 1
    else
      ValuesOfNonEmpty(m);
      MaxExists(m.Values);
      var top :| IsMax(top, m.Values);
      assert forall k :: k in m ==> m[k] in m.Values;
      top + 1
  }

  /**
   * What the `forEach` of `ensurePlayerMapping` computes: the map after every
   * unmapped profile, in order, received the next id, and the counter after
   * the last assignment.
   */
  function Assign(m: PlayerMap, profiles: seq<string>, next: int): (PlayerMap, int)
    decreases |profiles|
  {
    if profiles == [] then (m, next)
    else if IsMapped(m, profiles[0]) then Assign(m, profiles[1..], next)
    else Assign(m[profiles[0] := next], profiles[1..], next + 1)
  }

  /**
   * Reference definition of the profiles that receive a new id: those not
   * mapped in `m` and not in `seen`, each at its first occurrence, in order.
   */
  function FreshFrom(m: PlayerMap, profiles: seq<string>, seen: set<string>): seq<string>
    decreases |profiles|
  {
    if profiles == [] then []
    else if IsMapped(m, profiles[0]) || profiles[0] in seen then FreshFrom(m, profiles[1..], seen)
    else [profiles[0]] + FreshFrom(m, profiles[1..], seen + {profiles[0]})
  }

  /** The mapping loop of `ensurePlayerMapping`, on a copy of the current map. */
  method ExtendMapping(m: PlayerMap, profiles: seq<string>) returns (newMap: PlayerMap, changed: bool)
    ensures newMap == Assign(m, profiles, NextPlayerId(m)).0
    ensures changed <==> Assign(m, profiles, NextPlayerId(m)).1 != NextPlayerId(m)
    ensures !changed ==> newMap == m
  {
    newMap := m;
    var nextId := NextPlayerId(m);
    changed := false;
    var i := 0;
    while i < |profiles|
      invariant 0 <= i <= |profiles|
      invariant Assign(newMap, profiles[i..], nextId) == Assign(m, profiles, NextPlayerId(m))
      invariant changed <==> nextId != NextPlayerId(m)
      invariant nextId >= NextPlayerId(m)
      invariant !changed ==> newMap == m
    {
      assert profiles[i..][1..] == profiles[i+1..];
      var p := profiles[i];
      if !IsMapped(newMap, p) {
        newMap := newMap[p := nextId];
        nextId := nextId + 1;
        changed := true;
      }
      i := i + 1;
    }
    assert profiles[i..] == [];
  }

  /** An entry that is already mapped is never altered, whatever the counter. */
  lemma {:induction false} AssignKeepsMapped(m: PlayerMap, profiles: seq<string>, next: int, k: string)
    requires IsMapped(m, k)
    ensures k in Assign(m, profiles, next).0 && Assign(m, profiles, next).0[k] == m[k]
    decreases |profiles|
  {
    if profiles != [] {
      if IsMapped(m, profiles[0]) {
        AssignKeepsMapped(m, profiles[1..], next, k);
      } else {
        AssignKeepsMapped(m[profiles[0] := next], profiles[1..], next + 1, k);
      }
    }
  }

  lemma {:induction false} FreshShift(m: PlayerMap, profiles: seq<string>, seen: set<string>, x: string, id: int)
    requires id != 0
    ensures FreshFrom(m[x := id], profiles, seen) == FreshFrom(m, profiles, seen + {x})
    decreases |profiles|
  {
    if profiles != [] {
      var y := profiles[0];
      if IsMapped(m[x := id], y) || y in seen {
        FreshShift(m, profiles[1..], seen, x, id);
      } else {
        assert seen + {y} + {x} == seen + {x} + {y};
        FreshShift(m, profiles[1..], seen + {y}, x, id);
      }
    }
  }

  lemma {:induction false} FreshMembers(m: PlayerMap, profiles: seq<string>, seen: set<string>)
    ensures forall y :: y in FreshFrom(m, profiles, seen) ==> !IsMapped(m, y) && y !in seen && y in profiles
    ensures NoDup(FreshFrom(m, profiles, seen))
    ensures forall y :: y in profiles ==> IsMapped(m, y) || y in seen || y in FreshFrom(m, profiles, seen)
    decreases |profiles|
  {
    if profiles != [] {
      var y := profiles[0];
      if IsMapped(m, y) || y in seen {
        FreshMembers(m, profiles[1..], seen);
      } else {
        FreshMembers(m, profiles[1..], seen + {y});
      }
    }
  }

  /**
   * With a positive counter, the profiles of `FreshFrom` receive the
   * consecutive ids `next, next + 1, ...` in order, the counter ends past
   * them, and every other entry of the map is left as it was.
   */
  lemma {:induction false} AssignGivesConsecutiveIds(m: PlayerMap, profiles: seq<string>, next: int)
    requires next >= 1
    ensures var (r, n) := Assign(m, profiles, next);
            var given := FreshFrom(m, profiles, {});
            && n == next + |given|
            && (forall i :: 0 <= i < |given| ==> given[i] in r && r[given[i]] == next + i)
            && (forall k :: k in r <==> k in m || k in given)
            && (forall k :: k in m && k !in given ==> r[k] == m[k])
    decreases |profiles|
  {
    if profiles != [] {
      var x := profiles[0];
      if IsMapped(m, x) {
        AssignGivesConsecutiveIds(m, profiles[1..], next);
      } else {
        var m' := m[x := next];
        AssignGivesConsecutiveIds(m', profiles[1..], next + 1);
        FreshShift(m, profiles[1..], {}, x, next);
        assert FreshFrom(m, profiles, {}) == [x] + FreshFrom(m', profiles[1..], {});
        FreshMembers(m', profiles[1..], {});
        assert IsMapped(m', x);
      }
    }
  }

  /** The result of `ensurePlayerMapping` from a well-formed map. */
  function Ensured(m: PlayerMap, profiles: seq<string>): PlayerMap {
    Assign(m, profiles, NextPlayerId(m)).0
  }

  /** Every profile passed in is mapped afterwards, and the map stays well formed. */
  lemma EnsuredMapsAll(m: PlayerMap, profiles: seq<string>)
    requires WellFormed(m)
    ensures WellFormed(Ensured(m, profiles))
    ensures forall p :: p in profiles ==> IsMapped(Ensured(m, profiles), p)
  {
    var next := NextPlayerId(m);
    AssignGivesConsecutiveIds(m, profiles, next);
    FreshMembers(m, profiles, {});
    var r := Ensured(m, profiles);
    var given := FreshFrom(m, profiles, {});
    forall k | k in r ensures r[k] >= 1 {
      if k in given {
        var i :| 0 <= i < |given| && given[i] == k;
      }
    }
    forall p | p in profiles ensures IsMapped(r, p) {
      if p in given {
        var i :| 0 <= i < |given| && given[i] == p;
      }
    }
  }

  /** New ids differ from each other and from every id already in use, so an injective map stays injective. */
  lemma EnsuredStaysInjective(m: PlayerMap, profiles: seq<string>)
    requires WellFormed(m)
    requires Injective(m)
    ensures Injective(Ensured(m, profiles))
  {
    var next := NextPlayerId(m);
    AssignGivesConsecutiveIds(m, profiles, next);
    FreshMembers(m, profiles, {});
    var r := Ensured(m, profiles);
    var given := FreshFrom(m, profiles, {});
    forall a, b | a in r && b in r && a != b ensures r[a] != r[b] {
      if a in given && b in given {
        var i :| 0 <= i < |given| && given[i] == a;
        var j :| 0 <= j < |given| && given[j] == b;
      } else if a in given {
        var i :| 0 <= i < |given| && given[i] == a;
        assert b in m && m[b] < next;
      } else if b in given {
        var j :| 0 <= j < |given| && given[j] == b;
        assert a in m && m[a] < next;
      }
    }
  }

  /** A map in which every profile is already mapped is returned untouched and the counter does not move. */
  lemma {:induction false} AssignAllMapped(m: PlayerMap, profiles: seq<string>, next: int)
    requires forall p :: p in profiles ==> IsMapped(m, p)
    ensures Assign(m, profiles, next) == (m, next)
    decreases |profiles|
  {
    if profiles != [] {
      AssignAllMapped(m, profiles[1..], next);
    }
  }

  /** `ensurePlayerMapping` is idempotent: the second call returns an equal map and reports no change. */
  lemma EnsuredIdempotent(m: PlayerMap, profiles: seq<string>)
    requires WellFormed(m)
    ensures var r := Ensured(m, profiles);
            Assign(r, profiles, NextPlayerId(r)) == (r, NextPlayerId(r))
  {
    EnsuredMapsAll(m, profiles);
    var r := Ensured(m, profiles);
    AssignAllMapped(r, profiles, NextPlayerId(r));
  }

  /** The court count used when restoring a saved queue: the decoded courts' length, or 1 when it is absent or 0. */
  function CourtCountFor(decodedCourts: Option<nat>): nat
  {
    match decodedCourts
    case Some(k) => if k == 0 then 1 else k
    case None => 1
  }

  /** The queue manager as the hook sees it: its court count and, once initialised or loaded, its state. */
  datatype Manager<S> = Manager(courtCount: int, state: Option<S>)

  /** `new QueueManager(courts)`. */
  function NewManager<S>(courts: int): Manager<S> {
    Manager(courts, None)
  }

  /** The decoded `queueState` blob: the courts' length read by `JSON.parse`, and what `loadState` makes of it. */
  datatype QueueBlob<S> = QueueBlob(parsedCourts: Result<Option<nat>, string>, loaded: Result<S, string>)

  /** The event's `matches_state`; a blob that is absent or the empty string is `None`. */
  datatype StoredState<S> = StoredState(playerMap: Option<PlayerMap>, queueState: Option<QueueBlob<S>>)

  /** How a hook call ends for its caller. */
  datatype Outcome =
    | Done
    | Refused                   // the event is completed: a toast, nothing else
    | Rethrown(message: string) // the error reaches the caller
    | Reported(message: string) // the error is caught and only shown

  /**
   * What `loadState(snapshot)` in the rollback of `recordResult` does: either
   * it leaves the manager in some state, or it throws, leaving the manager in
   * whatever state it reached.
   */
  datatype Restore<S> = Restored(state: Option<S>) | RestoreFailed(message: string, leftBehind: Option<S>)

  class MatchManagementHook<S> {
    var playerMap: PlayerMap
    var manager: Manager<S>
    var version: nat
    var loadError: Option<string>

    constructor ()
      ensures playerMap == map[] && manager == NewManager(1) && version == 0 && loadError == None
    {
      playerMap := map[];
      manager := NewManager(1);
      version := 0;
      loadError := None;
    }

    /** The effect that restores the manager from the event's `matches_state`. */
    method LoadFromEvent(matchesState: Option<StoredState<S>>)
      modifies this
      ensures matchesState.None? ==> playerMap == old(playerMap) && manager == old(manager)
                                     && version == old(version) && loadError == old(loadError)
      ensures matchesState.Some? ==>
        var st := matchesState.value;
        && playerMap == (if st.playerMap.Some? then st.playerMap.value else old(playerMap))
        && (st.queueState.None? ==>
              manager == old(manager) && version == old(version) && loadError == old(loadError))
        && (st.queueState.Some? ==>
              var blob := st.queueState.value;
              match blob.parsedCourts
              case Err(msg) =>
                manager == old(manager) && version == old(version) && loadError == Some(msg)
              case Ok(len) =>
                var n := CourtCountFor(len);
                var built := if old(manager).courtCount != n then NewManager(n) else old(manager);
                match blob.loaded
                case Err(msg) => manager == built && version == old(version) && loadError == Some(msg)
                case Ok(s) => manager == Manager(n, Some(s)) && version == old(version) + 1 && loadError == None)
      ensures matchesState.Some? && matchesState.value.queueState.Some?
              && matchesState.value.queueState.value.parsedCourts.Ok? ==>
                var len := matchesState.value.queueState.value.parsedCourts.value;
                manager.courtCount >= 1
                && (len.Some? && len.value > 0 ==> manager.courtCount == len.value)
    {
      if matchesState.None? { return; }
      var st := matchesState.value;
      if st.playerMap.Some? {
        playerMap := st.playerMap.value;
      }
      if st.queueState.Some? {
        var blob := st.queueState.value;
        match blob.parsedCourts {
          case Err(msg) =>
            loadError := Some(msg);
          case Ok(len) =>
            var numCourts := CourtCountFor(len);
            if manager.courtCount != numCourts {
              manager := NewManager(numCourts);
            }
            match blob.loaded {
              case Err(msg) =>
                loadError := Some(msg);
              case Ok(s) =>
                manager := Manager(manager.courtCount, Some(s));
                version := version + 1;
                loadError := None;
            }
        }
      }
    }

    /** `initializeManager`: a given manager with the given court count. */
    method InitializeManager(courts: int) returns (m: Manager<S>)
      modifies this
      ensures m == NewManager(courts) && manager == m
      ensures version == old(version) + 1 && loadError == None && playerMap == old(playerMap)
    {
      manager := NewManager(courts);
      version := version + 1;
      loadError := None;
      m := manager;
    }

    /** `ensurePlayerMapping`: the state is written only when some profile received an id. */
    method EnsurePlayerMapping(profiles: seq<string>) returns (r: PlayerMap)
      modifies this
      ensures r == Ensured(old(playerMap), profiles)
      ensures playerMap == r
      ensures manager == old(manager) && version == old(version) && loadError == old(loadError)
    {
      var changed;
      r, changed := ExtendMapping(playerMap, profiles);
      if changed {
        playerMap := r;
      }
    }

    /**
     * `recordResult`: nothing happens on a completed event. Otherwise the
     * manager's state is saved as a snapshot (`snapshotFailure` is the error
     * that call throws, if any: it is outside the `try` and escapes with no
     * rollback), the result is applied (`step` is what the manager answers)
     * and persisted (`saveFailure` is the database's error, if any). On
     * either failure the snapshot is loaded back (`restored` is what that
     * load does), the version is bumped and the error is rethrown. A load
     * that throws escapes in place of the original error and skips the bump.
     * Whether a successful load gives back the state before the call depends
     * on the queue manager's save and load.
     */
    method RecordResult(status: EventStatus, snapshotFailure: Option<string>, step: Result<S, string>,
                        saveFailure: Option<string>, restored: Restore<S>)
      returns (outcome: Outcome)
      modifies this
      ensures playerMap == old(playerMap) && loadError == old(loadError)
      ensures status == Completed ==> outcome == Refused && manager == old(manager) && version == old(version)
      ensures status != Completed && snapshotFailure.Some? ==>
                outcome == Rethrown(snapshotFailure.value) && manager == old(manager) && version == old(version)
      ensures status != Completed && snapshotFailure.None? && (step.Err? || saveFailure.Some?) ==>
                var stepBump := if step.Ok? then 1 else 0;
                var cause := if step.Err? then step.error else saveFailure.value;
                match restored
                case Restored(r) =>
                  outcome == Rethrown(cause) && manager == Manager(old(manager).courtCount, r)
                  && version == old(version) + stepBump + 1
                case RestoreFailed(msg, left) =>
                  outcome == Rethrown(msg) && manager == Manager(old(manager).courtCount, left)
                  && version == old(version) + stepBump
      ensures status != Completed && snapshotFailure.None? && step.Ok? && saveFailure.None? ==>
                outcome == Done && manager == Manager(old(manager).courtCount, Some(step.value))
                && version == old(version) + 1
      ensures outcome.Rethrown? && restored == Restored(old(manager).state) ==> manager == old(manager)
    {
      if status == Completed {
        return Refused;
      }
      if snapshotFailure.Some? {
        return Rethrown(snapshotFailure.value);
      }
      var cause: string;
      match step {
        case Err(msg) =>
          cause := msg;
        case Ok(s) =>
          manager := Manager(manager.courtCount, Some(s));
          version := version + 1;
          if saveFailure.None? {
            return Done;
          }
          cause := saveFailure.value;
      }
      match restored {
        case Restored(r) =>
          manager := Manager(manager.courtCount, r);
          version := version + 1;
          outcome := Rethrown(cause);
        case RestoreFailed(msg, left) =>
          manager := Manager(manager.courtCount, left);
          outcome := Rethrown(msg);
      }
    }

    /**
     * `updateScore`: the manager's new state is kept even when persisting it
     * fails; every error is only reported. There is no rollback: when the
     * manager's own update throws, it stays in whatever state it reached,
     * `partial`, and the version is not bumped.
     */
    method UpdateScore(status: EventStatus, step: Result<S, string>, partial: Option<S>, saveFailure: Option<string>)
      returns (outcome: Outcome)
      modifies this
      ensures playerMap == old(playerMap) && loadError == old(loadError)
      ensures status == Completed ==> outcome == Refused && manager == old(manager) && version == old(version)
      ensures status != Completed && step.Err? ==>
                outcome == Reported(step.error) && manager == Manager(old(manager).courtCount, partial)
                && version == old(version)
      ensures status != Completed && step.Err? && partial == old(manager).state ==> manager == old(manager)
      ensures status != Completed && step.Ok? ==>
                manager == Manager(old(manager).courtCount, Some(step.value)) && version == old(version) + 1
      ensures status != Completed && step.Ok? ==> outcome == (if saveFailure.Some? then Reported(saveFailure.value) else Done)
    {
      if status == Completed {
        return Refused;
      }
      match step {
        case Err(msg) =>
          manager := Manager(manager.courtCount, partial);
          outcome := Reported(msg);
        case Ok(s) =>
          manager := Manager(manager.courtCount, Some(s));
          version := version + 1;
          outcome := if saveFailure.Some? then Reported(saveFailure.value) else Done;
      }
    }

    /**
     * `resetQueue`: the null state is persisted first; only once that
     * succeeded are the manager and the player map cleared.
     */
    method ResetQueue(status: EventStatus, saveFailure: Option<string>) returns (outcome: Outcome)
      modifies this
      ensures loadError == old(loadError)
      ensures status == Completed || saveFailure.Some? ==>
                manager == old(manager) && playerMap == old(playerMap) && version == old(version)
      ensures status == Completed ==> outcome == Refused
      ensures status != Completed && saveFailure.Some? ==> outcome == Reported(saveFailure.value)
      ensures status != Completed && saveFailure.None? ==>
                outcome == Done && manager == NewManager(1) && playerMap == map[] && version == old(version) + 1
    {
      if status == Completed {
        return Refused;
      }
      if saveFailure.Some? {
        return Reported(saveFailure.value);
      }
      manager := NewManager(1);
      playerMap := map[];
      version := version + 1;
      outcome := Done;
    }
  }
}
