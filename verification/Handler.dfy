/** The Go handlers on the SQL repository, one call at a time. */
module Handler {
  import opened Basics
  import opened Commands
  import opened Repositories

  type Configs = map<DeviceId, uint32>

  const DEFAULT_SLEEP: uint32 := 60
  const LOW_BATTERY_SLEEP: uint32 := 300

  function ConfigOf(m: Configs, d: DeviceId): Option<uint32> { if d in m then Some(m[d]) else None }

  /** The map after the CONFIG_UPDATEs of a list, in order: only the last one shows. */
  function Configured(m: Configs, d: DeviceId, cs: seq<Command>): Configs {
    if LastUpdate(cs).Some? then m[d := LastUpdate(cs).value] else m
  }

  /** An interval that is unset or zero means 60. */
  function OrDefault(interval: Option<uint32>): uint32 {
    if interval.Some? && interval.value != 0 then interval.value else DEFAULT_SLEEP
  }

  /** The stored interval as a telemetry reads it. */
  function ReadInterval(m: Configs, d: DeviceId): uint32 { OrDefault(ConfigOf(m, d)) }

  /** The interval a reply carries. A battery below 20 % overrides everything; an unset or zero interval means 60. */
  function ReplyInterval(m: Configs, d: DeviceId, cs: seq<Command>, batteryPct: nat): uint32 {
    if batteryPct < 20 then LOW_BATTERY_SLEEP
    else if LastUpdate(cs).Some? then LastUpdate(cs).value
    else ReadInterval(m, d)
  }

  class ApiHandler {
    const repo: SqlCommands
    var deviceSleepConfigs: Configs

    constructor ()
      ensures repo.Valid() && repo.commands == [] && deviceSleepConfigs == map[] && fresh(repo)
    {
      repo := new SqlCommands();
      deviceSleepConfigs := map[];
    }

    /** Interval decision and command pickup of HandleTelemetry. */
    method HandleTelemetry(d: DeviceId, batteryPct: nat) returns (interval: uint32, cmds: seq<Command>)
      requires repo.Valid()
      modifies this, repo
      ensures repo.Valid() && cmds == PendingOf(old(repo.commands), d) &&
          repo.commands == Dispatched(old(repo.commands), d)
      ensures deviceSleepConfigs == Configured(old(deviceSleepConfigs), d, cmds)
      ensures interval == ReplyInterval(old(deviceSleepConfigs), d, cmds, batteryPct)
      // The same, spelled out: k is the last CONFIG_UPDATE with a positive number of seconds.
      ensures batteryPct < 20 ==> interval == 300
      ensures forall k | 0 <= k < |cmds| && cmds[k].action == "CONFIG_UPDATE" && cmds[k].sleep.Some? &&
                cmds[k].sleep.value > 0.0 && (forall j | k < j < |cmds| ::
                  cmds[j].action == "CONFIG_UPDATE" && cmds[j].sleep.Some? ==> cmds[j].sleep.value <= 0.0) ::
                && deviceSleepConfigs == old(deviceSleepConfigs)[d := cmds[k].sleep.value.Floor % 0x1_0000_0000]
                && (cmds[k].sleep.value < 4294967296.0 ==>
                      deviceSleepConfigs[d] as real <= cmds[k].sleep.value < deviceSleepConfigs[d] as real + 1.0)
                && (batteryPct >= 20 ==> interval == deviceSleepConfigs[d])
      ensures (forall j | 0 <= j < |cmds| ::
                 cmds[j].action == "CONFIG_UPDATE" && cmds[j].sleep.Some? ==> cmds[j].sleep.value <= 0.0) ==>
                && deviceSleepConfigs == old(deviceSleepConfigs)
                && (batteryPct >= 20 ==>
                      interval ==
                      if d in deviceSleepConfigs && deviceSleepConfigs[d] != 0 then deviceSleepConfigs[d] else 60)
    {
      hide LastUpdate, Update, PendingOf, Dispatched, SqlCommands.Valid;
      NoneUpdated();
      interval := if d in deviceSleepConfigs then deviceSleepConfigs[d] else 0;
      if interval == 0 { interval := DEFAULT_SLEEP; }
      cmds := repo.GetPendingCommands(d);
      for i := 0 to |cmds|
        invariant repo.Valid() && repo.commands == Dispatched(old(repo.commands), d)
        invariant deviceSleepConfigs == Configured(old(deviceSleepConfigs), d, cmds[..i])
        invariant interval == ReplyInterval(old(deviceSleepConfigs), d, cmds[..i], 100)
      {
        OneMoreUpdate(cmds, i);
        UpdateOf(cmds[i]);
        if cmds[i].action == "CONFIG_UPDATE" && cmds[i].sleep.Some? && cmds[i].sleep.value > 0.0 {
          interval := cmds[i].sleep.value.Floor % TWO_32;
          deviceSleepConfigs := deviceSleepConfigs[d := interval];
        }
      }
      assert cmds[..|cmds|] == cmds;
      if batteryPct < 20 { interval := LOW_BATTERY_SLEEP; }
      ConfiguredMeans(old(deviceSleepConfigs), d, cmds);
    }

    /** HandleQueueCommand: the map is written before the insert, and stays written when the insert fails. */
    method HandleQueueCommand(d: DeviceId, cmd: Command) returns (ok: bool)
      requires repo.Valid()
      modifies this, repo
      ensures repo.Valid()
      ensures ok == (d != [] && cmd.action != "" && forall r | r in old(repo.commands) :: r.cmd.id != cmd.id)
      ensures repo.commands == old(repo.commands) + (if ok then [Row(d, cmd, Pending)] else [])
      ensures deviceSleepConfigs ==
              if d != [] && cmd.action != "" then Configured(old(deviceSleepConfigs), d, [cmd])
              else old(deviceSleepConfigs)
      ensures deviceSleepConfigs ==
              if d != [] && cmd.action == "CONFIG_UPDATE" && cmd.sleep.Some? && cmd.sleep.value > 0.0
              then old(deviceSleepConfigs)[d := cmd.sleep.value.Floor % 0x1_0000_0000]
              else old(deviceSleepConfigs)
    {
      if d == [] || cmd.action == "" { return false; }
      assert LastUpdate([cmd]) == Update(cmd) by { assert [cmd][..0] == []; }
      UpdateOf(cmd);
      if cmd.action == "CONFIG_UPDATE" && cmd.sleep.Some? && cmd.sleep.value > 0.0 {
        deviceSleepConfigs := deviceSleepConfigs[d := cmd.sleep.value.Floor % TWO_32];
      }
      ok := repo.QueueCommand(d, cmd);
    }

    /** HandleAckCommand: the repository's error is ignored. */
    method HandleAckCommand(d: DeviceId, id: string)
      requires repo.Valid()
      modifies repo
      ensures repo.Valid() && repo.commands == AckRow(old(repo.commands), d, id)
    {
      repo.AckCommand(d, id);
    }
  }

  /** Which command counts, and for how many seconds. */
  lemma UpdateOf(c: Command)
    ensures Update(c) ==
            if c.action == "CONFIG_UPDATE" && c.sleep.Some? && c.sleep.value > 0.0
            then Some(c.sleep.value.Floor % 0x1_0000_0000) else None
  {
  }

  lemma ConfiguredMeans(m: Configs, d: DeviceId, cs: seq<Command>)
    ensures forall k: nat | LastAsks(cs, k) ::
              && Configured(m, d, cs) == m[d := cs[k].sleep.value.Floor % 0x1_0000_0000]
              && (cs[k].sleep.value < 4294967296.0 ==>
                    Configured(m, d, cs)[d] as real <= cs[k].sleep.value < Configured(m, d, cs)[d] as real + 1.0)
              && LastUpdate(cs) == Some(Configured(m, d, cs)[d])
    ensures NoneAsks(cs) ==> Configured(m, d, cs) == m && LastUpdate(cs) == None
  {
    hide LastUpdate;
    LastUpdateMeans(cs);
    forall k: nat | LastAsks(cs, k) && cs[k].sleep.value < 4294967296.0
      ensures Configured(m, d, cs)[d] as real <= cs[k].sleep.value < Configured(m, d, cs)[d] as real + 1.0
    {
      WholeSeconds(cs[k].sleep.value);
    }
  }

  lemma NoneUpdated()
    ensures LastUpdate([]) == None
  {
  }

  lemma OneMoreUpdate(cs: seq<Command>, i: nat)
    requires i < |cs|
    ensures LastUpdate(cs[..i + 1]) == if Update(cs[i]).Some? then Update(cs[i]) else LastUpdate(cs[..i])
  {
    assert cs[..i + 1][..i] == cs[..i];
  }

  /** A telemetry of one device: the commands it picked up and the battery level it reported. */
  datatype Visit = Visit(cmds: seq<Command>, batteryPct: nat)

  /** The intervals replied to successive telemetries of d. */
  function Replies(m: Configs, d: DeviceId, visits: seq<Visit>): seq<uint32>
    decreases |visits|
  {
    if visits == [] then []
    else
      var v := visits[0];
      [ReplyInterval(m, d, v.cmds, v.batteryPct)] + Replies(Configured(m, d, v.cmds), d, visits[1..])
  }

  /** The last CONFIG_UPDATE that was picked up so far, or what was stored before. */
  function Latest(m: Configs, d: DeviceId, visits: seq<Visit>): Option<uint32>
    decreases |visits|
  {
    if visits == [] then ConfigOf(m, d)
    else if LastUpdate(visits[|visits| - 1].cmds).Some? then LastUpdate(visits[|visits| - 1].cmds)
    else Latest(m, d, visits[..|visits| - 1])
  }

  lemma {:induction false} LatestFirst(m: Configs, d: DeviceId, visits: seq<Visit>)
    requires visits != []
    ensures Latest(m, d, visits) == Latest(Configured(m, d, visits[0].cmds), d, visits[1..])
    decreases |visits|
  {
    hide LastUpdate;
    var n := |visits| - 1;
    if n > 0 {
      LatestFirst(m, d, visits[..n]);
      assert visits[..n][1..] == visits[1..][..n - 1];
    }
  }

  /**
   * An interval persists: as long as the battery is not low, every reply repeats
   * the last CONFIG_UPDATE picked up at any earlier visit, acknowledged or not;
   * an interval of zero is replaced by 60 unless it was picked up just now.
   */
  lemma {:induction false} IntervalPersists(m: Configs, d: DeviceId, visits: seq<Visit>, k: nat)
    requires k < |visits| && visits[k].batteryPct >= 20
    ensures |Replies(m, d, visits)| == |visits|
    ensures var last := Latest(m, d, visits[..k + 1]);
            Replies(m, d, visits)[k] ==
            if LastUpdate(visits[k].cmds).Some? then last.value
            else if last.Some? && last.value != 0 then last.value
            else DEFAULT_SLEEP
    decreases |visits|
  {
    hide LastUpdate;
    var rest := visits[1..];
    var m' := Configured(m, d, visits[0].cmds);
    RepliesCount(m', d, rest);
    LatestFirst(m, d, visits[..k + 1]);
    assert visits[..k + 1][1..] == rest[..k];
    if k > 0 {
      IntervalPersists(m', d, rest, k - 1);
      assert rest[k - 1] == visits[k];
    } else {
      assert rest[..0] == [];
      LatestFirst(m, d, visits[..1]);
    }
  }

  lemma {:induction false} RepliesCount(m: Configs, d: DeviceId, visits: seq<Visit>)
    ensures |Replies(m, d, visits)| == |visits|
    decreases |visits|
  {
    if visits != [] { RepliesCount(Configured(m, d, visits[0].cmds), d, visits[1..]); }
  }
}
