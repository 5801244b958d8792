/** Remote commands, the SQL commands table, and what each statement does to it. */
module Commands {
  import opened Basics

  type DeviceId = seq<byte>

  /** params is the JSON text of the parameters; sleep is their sleep_interval_sec, when that is a number. */
  datatype Command = Command(id: string, action: string, params: string, sleep: Option<real>)

  datatype Status = Pending | Sent | Acked

  datatype Row = Row(device: DeviceId, cmd: Command, status: Status)

  /** uint32(v) for a positive float64, as the amd64 conversion through int64 gives it. */
  function ToUint32(v: real): uint32
    requires v > 0.0
  {
    v.Floor % TWO_32
  }

  /** The interval a command asks for, if it is a valid CONFIG_UPDATE. */
  function Update(c: Command): Option<uint32> {
    if c.action == "CONFIG_UPDATE" && c.sleep.Some? && c.sleep.value > 0.0 then Some(ToUint32(c.sleep.value)) else None
  }

  /** The last interval asked for in a list. */
  function LastUpdate(cs: seq<Command>): Option<uint32>
    decreases |cs|
  {
    if cs == [] then None
    else if Update(cs[|cs| - 1]).Some? then Update(cs[|cs| - 1])
    else LastUpdate(cs[..|cs| - 1])
  }

  lemma {:induction false} LastUpdateConcat(a: seq<Command>, b: seq<Command>)
    ensures LastUpdate(a + b) == if LastUpdate(b).Some? then LastUpdate(b) else LastUpdate(a)
    decreases |b|
  {
    if b == [] {
      assert a + b == a;
    } else {
      assert (a + b)[..|a + b| - 1] == a + b[..|b| - 1];
      LastUpdateConcat(a, b[..|b| - 1]);
    }
  }

  /** The last command of a list that is a CONFIG_UPDATE with a positive sleep_interval_sec stands at position k. */
  predicate LastAsks(cs: seq<Command>, k: nat) {
    && k < |cs| && cs[k].action == "CONFIG_UPDATE" && cs[k].sleep.Some? && cs[k].sleep.value > 0.0
    && forall j | k < j < |cs| :: cs[j].action == "CONFIG_UPDATE" && cs[j].sleep.Some? ==> cs[j].sleep.value <= 0.0
  }

  /** The list has no such command. */
  predicate NoneAsks(cs: seq<Command>) {
    forall j | 0 <= j < |cs| :: cs[j].action == "CONFIG_UPDATE" && cs[j].sleep.Some? ==> cs[j].sleep.value <= 0.0
  }

  /** What LastUpdate means: the number of whole seconds of that command, as 32 bits hold it. */
  lemma {:induction false} LastUpdateMeans(cs: seq<Command>)
    ensures forall k: nat | LastAsks(cs, k) :: LastUpdate(cs) == Some(cs[k].sleep.value.Floor % 0x1_0000_0000)
    ensures NoneAsks(cs) <==> LastUpdate(cs) == None
    ensures NoneAsks(cs) || exists k: nat :: LastAsks(cs, k)
    decreases |cs|
  {
    if cs != [] {
      var n := |cs| - 1;
      var front := cs[..n];
      LastUpdateMeans(front);
      if cs[n].action == "CONFIG_UPDATE" && cs[n].sleep.Some? && cs[n].sleep.value > 0.0 {
        assert LastAsks(cs, n);
      } else {
        forall k: nat | LastAsks(cs, k) ensures LastAsks(front, k) {}
        if k: nat :| LastAsks(front, k) { assert LastAsks(cs, k); }
        assert NoneAsks(front) <==> NoneAsks(cs) by {
          assert forall j | 0 <= j < n :: front[j] == cs[j];
        }
      }
    }
  }

  /** Below 2^32 that is the integer part. */
  lemma WholeSeconds(v: real)
    requires 0.0 < v < 4294967296.0
    ensures (v.Floor % 0x1_0000_0000) as real <= v < (v.Floor % 0x1_0000_0000) as real + 1.0
  {
  }

  // ---------------------------------------------------------------------
  // The commands table
  // ---------------------------------------------------------------------

  /** The UNIQUE constraint on command_id. */
  predicate UniqueIds(rows: seq<Row>) {
    forall i, j | 0 <= i < j < |rows| :: rows[i].cmd.id != rows[j].cmd.id
  }

  predicate Known(rows: seq<Row>, id: string) { exists r | r in rows :: r.cmd.id == id }

  /** The rows of one device, in insertion order. */
  function RowsOf(rows: seq<Row>, d: DeviceId): seq<Row>
    decreases |rows|
  {
    if rows == [] then []
    else RowsOf(rows[..|rows| - 1], d) + (if rows[|rows| - 1].device == d then [rows[|rows| - 1]] else [])
  }

  function CommandsIn(rows: seq<Row>): (cs: seq<Command>)
    ensures |cs| == |rows| && forall i | 0 <= i < |cs| :: cs[i] == rows[i].cmd
  {
    seq(|rows|, i requires 0 <= i < |rows| => rows[i].cmd)
  }

  /** SELECT ... WHERE device_id = ? AND status = 'PENDING' ORDER BY created_at ASC. */
  function PendingOf(rows: seq<Row>, d: DeviceId): seq<Command>
    decreases |rows|
  {
    if rows == [] then []
    else
      var last := rows[|rows| - 1];
      PendingOf(rows[..|rows| - 1], d) + (if last.device == d && last.status == Pending then [last.cmd] else [])
  }

  /** The loop over the rows of that SELECT. */
  method SelectPending(rows: seq<Row>, d: DeviceId) returns (list: seq<Command>)
    ensures list == PendingOf(rows, d)
  {
    list := [];
    for i := 0 to |rows|
      invariant list == PendingOf(rows[..i], d)
    {
      assert rows[..i + 1][..i] == rows[..i];
      if rows[i].device == d && rows[i].status == Pending { list := list + [rows[i].cmd]; }
    }
    assert rows[..|rows|] == rows;
  }

  /** UPDATE commands SET status = 'SENT' WHERE command_id = ?. */
  function MarkSent(rows: seq<Row>, id: string): (s: seq<Row>)
    ensures |s| == |rows|
    ensures forall i | 0 <= i < |rows| :: s[i] == (if rows[i].cmd.id == id then rows[i].(status := Sent) else rows[i])
  {
    seq(|rows|, i requires 0 <= i < |rows| => if rows[i].cmd.id == id then rows[i].(status := Sent) else rows[i])
  }

  /** One mark after another, for the ids of a list. */
  function MarkAll(rows: seq<Row>, cs: seq<Command>): (s: seq<Row>)
    ensures |s| == |rows|
    decreases |cs|
  {
    if cs == [] then rows else MarkAll(MarkSent(rows, cs[0].id), cs[1..])
  }

  /** UPDATE commands SET status = 'ACKED' WHERE device_id = ? AND command_id = ?. */
  function AckRow(rows: seq<Row>, d: DeviceId, id: string): (s: seq<Row>)
    ensures |s| == |rows|
    ensures forall i | 0 <= i < |rows| ::
              s[i] == (if rows[i].device == d && rows[i].cmd.id == id then rows[i].(status := Acked) else rows[i])
  {
    seq(|rows|, i requires 0 <= i < |rows| =>
      if rows[i].device == d && rows[i].cmd.id == id then rows[i].(status := Acked) else rows[i])
  }

  /** All pending rows of a device become SENT at once. */
  function Dispatched(rows: seq<Row>, d: DeviceId): (s: seq<Row>)
    ensures |s| == |rows|
    ensures forall i | 0 <= i < |rows| ::
              s[i] == (if rows[i].device == d && rows[i].status == Pending then rows[i].(status := Sent) else rows[i])
  {
    seq(|rows|, i requires 0 <= i < |rows| =>
      if rows[i].device == d && rows[i].status == Pending then rows[i].(status := Sent) else rows[i])
  }

  lemma {:induction false} RowsOfMember(rows: seq<Row>, d: DeviceId)
    ensures forall r :: r in RowsOf(rows, d) <==> r in rows && r.device == d
    decreases |rows|
  {
    if rows != [] {
      RowsOfMember(rows[..|rows| - 1], d);
      assert rows == rows[..|rows| - 1] + [rows[|rows| - 1]];
    }
  }

  lemma {:induction false} RowsOfUnique(rows: seq<Row>, d: DeviceId)
    requires UniqueIds(rows)
    ensures UniqueIds(RowsOf(rows, d))
    decreases |rows|
  {
    if rows != [] {
      var n := |rows| - 1;
      RowsOfUnique(rows[..n], d);
      RowsOfMember(rows[..n], d);
      forall r | r in RowsOf(rows[..n], d) ensures r.cmd.id != rows[n].cmd.id {
        assert r in rows[..n];
      }
    }
  }

  predicate DistinctIds(cs: seq<Command>) { forall i, j | 0 <= i < j < |cs| :: cs[i].id != cs[j].id }

  predicate IdIn(cs: seq<Command>, id: string) { exists c | c in cs :: c.id == id }

  lemma {:induction false} MarkAllPointwise(rows: seq<Row>, cs: seq<Command>)
    ensures forall i | 0 <= i < |rows| ::
              MarkAll(rows, cs)[i] == if IdIn(cs, rows[i].cmd.id) then rows[i].(status := Sent) else rows[i]
    decreases |cs|
  {
    if cs != [] {
      var m := MarkSent(rows, cs[0].id);
      MarkAllPointwise(m, cs[1..]);
      forall i | 0 <= i < |rows|
        ensures MarkAll(rows, cs)[i] == if IdIn(cs, rows[i].cmd.id) then rows[i].(status := Sent) else rows[i]
      {
        var id := rows[i].cmd.id;
        if IdIn(cs, id) {
          var c :| c in cs && c.id == id;
          assert c == cs[0] || c in cs[1..];
        }
        if IdIn(cs[1..], id) {
          var c :| c in cs[1..] && c.id == id;
          assert c in cs;
        }
        assert cs[0] in cs;
      }
    }
  }

  lemma {:induction false} PendingMember(rows: seq<Row>, d: DeviceId, c: Command)
    ensures c in PendingOf(rows, d) <==> Row(d, c, Pending) in rows
    decreases |rows|
  {
    if rows != [] {
      PendingMember(rows[..|rows| - 1], d, c);
      assert rows == rows[..|rows| - 1] + [rows[|rows| - 1]];
    }
  }

  /** Under the UNIQUE constraint, marking the selected ids one by one dispatches exactly the selected rows. */
  lemma MarkSelected(rows: seq<Row>, d: DeviceId)
    requires UniqueIds(rows)
    ensures MarkAll(rows, PendingOf(rows, d)) == Dispatched(rows, d)
  {
    var cs := PendingOf(rows, d);
    MarkAllPointwise(rows, cs);
    forall i | 0 <= i < |rows|
      ensures IdIn(cs, rows[i].cmd.id) <==> rows[i].device == d && rows[i].status == Pending
    {
      if IdIn(cs, rows[i].cmd.id) {
        var c :| c in cs && c.id == rows[i].cmd.id;
        PendingMember(rows, d, c);
      }
      PendingMember(rows, d, rows[i].cmd);
    }
  }

  /** A row keeps its device and command whatever happens to its status. */
  predicate SameCommands(a: seq<Row>, b: seq<Row>) {
    |a| == |b| && forall i | 0 <= i < |a| :: a[i].device == b[i].device && a[i].cmd == b[i].cmd
  }

  lemma UniqueKept(a: seq<Row>, b: seq<Row>)
    requires UniqueIds(a) && SameCommands(a, b)
    ensures UniqueIds(b)
  {
  }

  lemma UniqueAppend(rows: seq<Row>, r: Row)
    requires UniqueIds(rows) && !Known(rows, r.cmd.id)
    ensures UniqueIds(rows + [r])
  {
    forall i | 0 <= i < |rows| ensures rows[i].cmd.id != r.cmd.id {
      assert rows[i] in rows;
    }
  }
}
