/**
 The owner precompile's two scheduled features, native token management and transaction
 filtering: their enable times and the gates on adding members through them.
 */
module FeatureSchedule {
  import opened Words
  import opened Ledger

  const FEATURE_ENABLE_DELAY_SECONDS: nat := 7 * 24 * 60 * 60

  datatype Feature = NativeToken | TransactionFiltering

  /** An enable time, zero when unscheduled, and the members added through the feature. */
  datatype Gate = Gate(enabledFrom: U64, members: set<Address>)

  datatype World = World(chainOwners: set<Address>, nativeToken: Gate, filtering: Gate)

  function GateOf(w: World, f: Feature): Gate {
    match f
    case NativeToken => w.nativeToken
    case TransactionFiltering => w.filtering
  }

  function WithGate(w: World, f: Feature, g: Gate): World {
    match f
    case NativeToken => w.(nativeToken := g)
    case TransactionFiltering => w.(filtering := g)
  }

  datatype Call =
    | AddChainOwner(a: Address)
    | RemoveChainOwner(a: Address)
    | ScheduleFrom(feature: Feature, timestamp: U64)
    | AddMember(feature: Feature, a: Address)
    | RemoveMember(feature: Feature, a: Address)

  function NoticeEnd(now: U64): U64 {
    SatAdd64(now, FEATURE_ENABLE_DELAY_SECONDS)
  }

  predicate Enabled(g: Gate, now: U64) {
    g.enabledFrom != 0 && g.enabledFrom <= now
  }

  /** The earliest nonzero enable time that may be set: a full notice for a feature that is off or far off, its own
      time for one about to be enabled, and anything for one already enabled. */
  function Earliest(current: U64, now: U64): U64 {
    if current == 0 || current > NoticeEnd(now) then NoticeEnd(now)
    else if current > now then current
    else 0
  }

  predicate Accepted(w: World, now: U64, caller: Address, call: Call) {
    caller in w.chainOwners &&
    match call
    case AddChainOwner(_) => true
    case RemoveChainOwner(a) => a in w.chainOwners
    case ScheduleFrom(f, timestamp) => timestamp == 0 || timestamp >= Earliest(GateOf(w, f).enabledFrom, now)
    case AddMember(f, _) => Enabled(GateOf(w, f), now)
    case RemoveMember(f, a) => a in GateOf(w, f).members
  }

  function Effect(w: World, call: Call): World {
    match call
    case AddChainOwner(a) => w.(chainOwners := w.chainOwners + {a})
    case RemoveChainOwner(a) => w.(chainOwners := w.chainOwners - {a})
    case ScheduleFrom(f, timestamp) => WithGate(w, f, GateOf(w, f).(enabledFrom := timestamp))
    case AddMember(f, a) => WithGate(w, f, GateOf(w, f).(members := GateOf(w, f).members + {a}))
    case RemoveMember(f, a) => WithGate(w, f, GateOf(w, f).(members := GateOf(w, f).members - {a}))
  }

  class ArbOwner {
    var world: World

    constructor (world: World)
      ensures this.world == world
    {
      this.world := world;
    }

    /** The two guards on a new enable time. */
    method ScheduleFrom(f: Feature, timestamp: U64, now: U64) returns (ok: bool)
      modifies this
      ensures ok <==> timestamp == 0 || timestamp >= Earliest(GateOf(old(world), f).enabledFrom, now)
      ensures world == if ok then Effect(old(world), Call.ScheduleFrom(f, timestamp)) else old(world)
    {
      var gate := GateOf(world, f);
      var current := gate.enabledFrom;
      if timestamp != 0 {
        var minTime := SatAdd64(now, FEATURE_ENABLE_DELAY_SECONDS);
        if (current == 0 && timestamp < minTime) || (current > minTime && timestamp < minTime) {
          return false;
        }
        if current > now && current <= minTime && timestamp < current {
          return false;
        }
      }
      world := WithGate(world, f, gate.(enabledFrom := timestamp));
      return true;
    }

    /** A member is added only once the notice has passed for every moment at which the feature was distant. */
    method AddMember(f: Feature, a: Address, now: U64) returns (ok: bool)
      modifies this
      ensures ok <==> Enabled(GateOf(old(world), f), now)
      ensures ok ==> forall start: U64 :: start <= now && Distant(GateOf(old(world), f), start) ==> NoticeEnd(start) <= now
      ensures forall g: Feature :: g != f ==> GateOf(world, g) == GateOf(old(world), g)
      ensures world == if ok then Effect(old(world), Call.AddMember(f, a)) else old(world)
    {
      var gate := GateOf(world, f);
      if gate.enabledFrom == 0 || gate.enabledFrom > now {
        return false;
      }
      world := WithGate(world, f, gate.(members := gate.members + {a}));
      return true;
    }

    /** One call to the precompile; a refused call changes nothing. */
    method Run(now: U64, caller: Address, call: Call) returns (ok: bool)
      modifies this
      ensures ok <==> Accepted(old(world), now, caller, call)
      ensures world == if ok then Effect(old(world), call) else old(world)
    {
      if caller !in world.chainOwners {
        return false;
      }
      match call {
        case AddChainOwner(a) =>
          world := world.(chainOwners := world.chainOwners + {a});
          return true;
        case RemoveChainOwner(a) =>
          if a !in world.chainOwners {
            return false;
          }
          world := world.(chainOwners := world.chainOwners - {a});
          return true;
        case ScheduleFrom(f, timestamp) =>
          ok := ScheduleFrom(f, timestamp, now);
        case AddMember(f, a) =>
          ok := AddMember(f, a, now);
        case RemoveMember(f, a) =>
          var gate := GateOf(world, f);
          if a !in gate.members {
            return false;
          }
          world := WithGate(world, f, gate.(members := gate.members - {a}));
          return true;
      }
    }
  }

  // ---------- Runs ----------

  datatype Event = Event(now: U64, caller: Address, call: Call)

  function Next(w: World, e: Event): World {
    if Accepted(w, e.now, e.caller, e.call) then Effect(w, e.call) else w
  }

  function After(w: World, run: seq<Event>): World {
    if run == [] then w else Next(After(w, run[..|run| - 1]), run[|run| - 1])
  }

  predicate InOrder(run: seq<Event>, start: U64) {
    forall i :: 0 <= i < |run| ==> start <= run[i].now && (i > 0 ==> run[i - 1].now <= run[i].now)
  }

  /** A feature that is off, or at least a notice away from being on at `start`. */
  predicate Distant(g: Gate, start: U64) {
    g.enabledFrom == 0 || g.enabledFrom >= NoticeEnd(start)
  }

  lemma StepStaysDistant(w: World, e: Event, f: Feature, start: U64)
    requires Distant(GateOf(w, f), start) && start <= e.now < NoticeEnd(start)
    ensures Distant(GateOf(Next(w, e), f), start)
    ensures GateOf(Next(w, e), f).members <= GateOf(w, f).members
  {
    assert NoticeEnd(start) <= NoticeEnd(e.now);
  }

  /** No run of owner calls adds a member through a distant feature before the notice has passed. */
  lemma {:induction false} SevenDaysNotice(w: World, run: seq<Event>, f: Feature, start: U64)
    requires Distant(GateOf(w, f), start) && InOrder(run, start)
    requires forall i :: 0 <= i < |run| ==> run[i].now < NoticeEnd(start)
    ensures Distant(GateOf(After(w, run), f), start)
    ensures GateOf(After(w, run), f).members <= GateOf(w, f).members
  {
    if run != [] {
      var before := run[..|run| - 1];
      assert forall i :: 0 <= i < |before| ==> before[i] == run[i];
      SevenDaysNotice(w, before, f, start);
      StepStaysDistant(After(w, before), run[|run| - 1], f, start);
    }
  }

  /** The notice is no longer than that: scheduled at once, a member can be added the moment it ends. */
  lemma NoticeIsTight(w: World, f: Feature, start: U64, owner: Address, a: Address)
    requires owner in w.chainOwners && GateOf(w, f).enabledFrom == 0
    ensures var run := [Event(start, owner, ScheduleFrom(f, NoticeEnd(start))),
                        Event(NoticeEnd(start), owner, AddMember(f, a))];
            InOrder(run, start) && a in GateOf(After(w, run), f).members
  {
    var first := Event(start, owner, ScheduleFrom(f, NoticeEnd(start)));
    var second := Event(NoticeEnd(start), owner, AddMember(f, a));
    assert [first, second][..1] == [first] && [first][..0] == [];
    assert After(w, [first]) == Next(After(w, []), first);
    assert After(w, [first, second]) == Next(After(w, [first]), second);
  }
}
