/**
  Pruning interface addresses from a snapshot: stale assignments go, and an
  address goes with its last assignment (`prune_managed_network_state` in
  nautobot/data_loader/load_data.py, the part that works on snapshot rows).
  `None` is a missing or empty id, name or address.
*/
module PruneNetwork {
  import opened Prelude

  /** An address-to-interface assignment; either reference may be missing. */
  datatype Row = Row(iface: Option<string>, ip: Option<string>)

  datatype IpRow = IpRow(id: Option<string>, address: Option<string>)

  /** The address of each id. */
  type Addresses = map<string, Option<string>>

  /** A managed interface and the addresses it should have. */
  datatype Desired = Desired(iface: string, wanted: set<string>)

  /** An interface of the snapshot. */
  datatype IfaceRow = IfaceRow(id: Option<string>, device: Option<string>, name: Option<string>)

  /** An item of `desired_ips`: a device's interface by name, and the addresses it should have. */
  datatype Entry = Entry(device: string, iface: string, wanted: set<string>)

  /** A recorded delete: of an assignment row, or of an address. */
  datatype Deletion = Unassign(row: nat) | DeleteIp(ip: string)

  datatype State = State(counts: map<string, int>, actions: seq<Deletion>)

  // ---------------------------------------------------------------- what the rows say

  /** `ip_by_id`, as the address of each id; a later row replaces an earlier one. */
  function AddressesOf(ips: seq<IpRow>): Addresses {
    if ips == [] then map[]
    else
      var last := ips[|ips| - 1];
      var before := AddressesOf(ips[..|ips| - 1]);
      if last.id.Some? then before[last.id.value := last.address] else before
  }

  /** The rows of an interface, in snapshot order. */
  function RowsOf(rows: seq<Row>, iface: string): (rs: seq<nat>)
    ensures forall r :: r in rs <==> 0 <= r < |rows| && rows[r].iface == Some(iface)
    ensures forall i | 0 <= i < |rs| :: rs[i] < |rows|
    ensures NoDuplicates(rs)
  {
    if rows == [] then []
    else
      var rs := RowsOf(rows[..|rows| - 1], iface);
      assert forall i | 0 <= i < |rs| :: rs[i] in rs;
      if rows[|rows| - 1].iface == Some(iface) then rs + [|rows| - 1] else rs
  }

  function Count(counts: map<string, int>, ip: string): int {
    if ip in counts then counts[ip] else 0
  }

  /** The row names a known address that the interface should not have. */
  predicate Stale(addresses: Addresses, row: Row, wanted: set<string>) {
    && row.ip.Some? && row.ip.value in addresses
    && addresses[row.ip.value].Some? && addresses[row.ip.value].value !in wanted
  }

  // ---------------------------------------------------------------- the sweep

  /** The inner loop's body. */
  function Visit(rows: seq<Row>, addresses: Addresses, st: State, r: nat, wanted: set<string>): State
    requires r < |rows|
  {
    if !Stale(addresses, rows[r], wanted) then st
    else
      var ip := rows[r].ip.value;
      var left := if Count(st.counts, ip) - 1 < 0 then 0 else Count(st.counts, ip) - 1;
      State(st.counts[ip := left], st.actions + [Unassign(r)] + if left == 0 then [DeleteIp(ip)] else [])
  }

  function VisitAll(rows: seq<Row>, addresses: Addresses, st: State, rs: seq<nat>, wanted: set<string>): State
    requires forall i | 0 <= i < |rs| :: rs[i] < |rows|
  {
    if rs == [] then st
    else Visit(rows, addresses, VisitAll(rows, addresses, st, rs[..|rs| - 1], wanted), rs[|rs| - 1], wanted)
  }

  function Sweep(rows: seq<Row>, addresses: Addresses, st: State, desired: seq<Desired>): State {
    if desired == [] then st
    else
      var d := desired[|desired| - 1];
      VisitAll(rows, addresses, Sweep(rows, addresses, st, desired[..|desired| - 1]), RowsOf(rows, d.iface), d.wanted)
  }

  /** `assignments_by_ip`. */
  function CountsOf(rows: seq<Row>): (counts: map<string, int>) {
    if rows == [] then map[]
    else
      var counts := CountsOf(rows[..|rows| - 1]);
      match rows[|rows| - 1].ip
      case None => counts
      case Some(ip) => counts[ip := Count(counts, ip) + 1]
  }

  function Start(rows: seq<Row>): State { State(CountsOf(rows), []) }

  // ---------------------------------------------------------------- counting

  /** The sum of `f` over the first `n` rows, those that assign the address. */
  function SumOver(rows: seq<Row>, ip: string, n: nat, f: nat -> nat): nat
    requires n <= |rows|
  {
    if n == 0 then 0 else SumOver(rows, ip, n - 1, f) + if rows[n - 1].ip == Some(ip) then f(n - 1) else 0
  }

  function One(): nat -> nat { _ => 1 }

  /** How many assignments the address has. */
  function Assigned(rows: seq<Row>, ip: string): nat { SumOver(rows, ip, |rows|, One()) }

  /** How often each row has been deleted. */
  ghost function Times(actions: seq<Deletion>): nat -> nat {
    r => multiset(actions)[Unassign(r)]
  }

  ghost function Unassigned(rows: seq<Row>, actions: seq<Deletion>, ip: string): nat {
    SumOver(rows, ip, |rows|, Times(actions))
  }

  lemma {:induction false} SumAlike(rows: seq<Row>, ip: string, n: nat, f: nat -> nat, g: nat -> nat)
    requires n <= |rows|
    requires forall r: nat | r < n && rows[r].ip == Some(ip) :: f(r) == g(r)
    ensures SumOver(rows, ip, n, f) == SumOver(rows, ip, n, g)
  {
    if n > 0 {
      SumAlike(rows, ip, n - 1, f, g);
    }
  }

  lemma {:induction false} SumOneMore(rows: seq<Row>, ip: string, n: nat, f: nat -> nat, g: nat -> nat, r0: nat)
    requires r0 < n <= |rows| && rows[r0].ip == Some(ip)
    requires forall r: nat | r < n :: g(r) == f(r) + if r == r0 then 1 else 0
    ensures SumOver(rows, ip, n, g) == SumOver(rows, ip, n, f) + 1
  {
    if n - 1 == r0 {
      SumAlike(rows, ip, n - 1, f, g);
    } else {
      SumOneMore(rows, ip, n - 1, f, g, r0);
    }
  }

  /** A sum reaches the number of summands where each is at least one, and stays within it where each is at most one. */
  lemma {:induction false} SumAgainstCount(rows: seq<Row>, ip: string, n: nat, f: nat -> nat)
    requires n <= |rows|
    ensures (forall r: nat | r < n && rows[r].ip == Some(ip) :: f(r) >= 1) ==>
              SumOver(rows, ip, n, f) >= SumOver(rows, ip, n, One())
              && (SumOver(rows, ip, n, f) == SumOver(rows, ip, n, One()) ==>
                    forall r: nat | r < n && rows[r].ip == Some(ip) :: f(r) == 1)
    ensures (forall r: nat | r < n && rows[r].ip == Some(ip) :: f(r) <= 1) ==>
              SumOver(rows, ip, n, f) <= SumOver(rows, ip, n, One())
              && (SumOver(rows, ip, n, f) == SumOver(rows, ip, n, One()) ==>
                    forall r: nat | r < n && rows[r].ip == Some(ip) :: f(r) == 1)
  {
    if n > 0 {
      SumAgainstCount(rows, ip, n - 1, f);
    }
  }

  lemma {:induction false} SumOfPrefix(rows: seq<Row>, ip: string, n: nat, m: nat)
    requires n <= m <= |rows|
    ensures SumOver(rows[..m], ip, n, One()) == SumOver(rows, ip, n, One())
  {
    if n > 0 {
      SumOfPrefix(rows, ip, n - 1, m);
    }
  }

  /** The counting loop counts each address's assignments. */
  lemma {:induction false} CountsAreRight(rows: seq<Row>, ip: string)
    ensures Count(CountsOf(rows), ip) == Assigned(rows, ip)
    decreases |rows|
  {
    if rows != [] {
      CountsAreRight(rows[..|rows| - 1], ip);
      SumOfPrefix(rows, ip, |rows| - 1, |rows| - 1);
    }
  }

  // ---------------------------------------------------------------- what every step keeps

  function AtLeastZero(x: int): nat { if x < 0 then 0 else x }

  /**
    For one address, with as many deletions of its assignments as there have been: the counter is what is left,
    and from the deletion that uses up the assignments on, each one deletes the address.
  */
  ghost predicate Tracks(rows: seq<Row>, st: State, ip: string) {
    var all, gone := Assigned(rows, ip), Unassigned(rows, st.actions, ip);
    && Count(st.counts, ip) == AtLeastZero(all - gone)
    && multiset(st.actions)[DeleteIp(ip)] == if 0 < all <= gone then gone - all + 1 else 0
  }

  lemma StartTracks(rows: seq<Row>, ip: string)
    ensures Tracks(rows, Start(rows), ip)
  {
    CountsAreRight(rows, ip);
    NothingUnassigned(rows, ip, |rows|);
  }

  lemma {:induction false} NothingUnassigned(rows: seq<Row>, ip: string, n: nat)
    requires n <= |rows|
    ensures SumOver(rows, ip, n, Times([])) == 0
  {
    if n > 0 {
      NothingUnassigned(rows, ip, n - 1);
    }
  }

  lemma {:induction false} AssignedIsPositive(rows: seq<Row>, ip: string, n: nat, r: nat)
    requires r < n <= |rows| && rows[r].ip == Some(ip)
    ensures SumOver(rows, ip, n, One()) > 0
  {
    if r < n - 1 {
      AssignedIsPositive(rows, ip, n - 1, r);
    }
  }

  /** The effect of deleting row `r` of the address `own`. */
  lemma Removing(rows: seq<Row>, addresses: Addresses, st: State, r: nat, wanted: set<string>, more: seq<Deletion>)
    requires r < |rows| && Stale(addresses, rows[r], wanted)
    requires var own := rows[r].ip.value;
             more == if Count(st.counts, own) <= 1 then [DeleteIp(own)] else []
    ensures var own := rows[r].ip.value;
            var after := Visit(rows, addresses, st, r, wanted);
            && multiset(after.actions) == multiset(st.actions) + multiset{Unassign(r)} + multiset(more)
            && after.counts == st.counts[own := AtLeastZero(Count(st.counts, own) - 1)]
            && forall x: nat :: Times(after.actions)(x) == Times(st.actions)(x) + if x == r then 1 else 0
  {
    var after := Visit(rows, addresses, st, r, wanted);
    assert after.actions == st.actions + [Unassign(r)] + more;
    assert multiset(after.actions) == multiset(st.actions) + multiset{Unassign(r)} + multiset(more);
  }

  /** Every visit keeps the counter and the deletions of every address in step. */
  lemma VisitKeepsTracks(rows: seq<Row>, addresses: Addresses, st: State, r: nat, wanted: set<string>, ip: string)
    requires r < |rows| && Tracks(rows, st, ip)
    ensures Tracks(rows, Visit(rows, addresses, st, r, wanted), ip)
  {
    if Stale(addresses, rows[r], wanted) {
      var own := rows[r].ip.value;
      var more := if Count(st.counts, own) <= 1 then [DeleteIp(own)] else [];
      var after := Visit(rows, addresses, st, r, wanted);
      Removing(rows, addresses, st, r, wanted, more);
      if ip == own {
        AssignedIsPositive(rows, ip, |rows|, r);
        SumOneMore(rows, ip, |rows|, Times(st.actions), Times(after.actions), r);
      } else {
        SumAlike(rows, ip, |rows|, Times(st.actions), Times(after.actions));
        assert DeleteIp(ip) !in multiset(more);
      }
    }
  }

  lemma {:induction false} VisitAllKeepsTracks(rows: seq<Row>, addresses: Addresses, st: State, rs: seq<nat>,
                                               wanted: set<string>, ip: string)
    requires forall i | 0 <= i < |rs| :: rs[i] < |rows|
    requires Tracks(rows, st, ip)
    ensures Tracks(rows, VisitAll(rows, addresses, st, rs, wanted), ip)
    decreases |rs|
  {
    if rs != [] {
      var front := rs[..|rs| - 1];
      VisitAllKeepsTracks(rows, addresses, st, front, wanted, ip);
      VisitKeepsTracks(rows, addresses, VisitAll(rows, addresses, st, front, wanted), rs[|rs| - 1], wanted, ip);
    }
  }

  lemma {:induction false} SweepTracks(rows: seq<Row>, addresses: Addresses, desired: seq<Desired>, ip: string)
    ensures Tracks(rows, Sweep(rows, addresses, Start(rows), desired), ip)
    decreases |desired|
  {
    if desired == [] {
      StartTracks(rows, ip);
    } else {
      var d, front := desired[|desired| - 1], desired[..|desired| - 1];
      SweepTracks(rows, addresses, front, ip);
      VisitAllKeepsTracks(rows, addresses, Sweep(rows, addresses, Start(rows), front), RowsOf(rows, d.iface), d.wanted, ip);
    }
  }

  // ---------------------------------------------------------------- the rows

  /** The row is stale in this listing. */
  predicate StaleIn(rows: seq<Row>, addresses: Addresses, d: Desired, r: nat)
    requires r < |rows|
  {
    rows[r].iface == Some(d.iface) && Stale(addresses, rows[r], d.wanted)
  }

  /** In how many listings the row is stale. */
  function Listings(rows: seq<Row>, addresses: Addresses, desired: seq<Desired>, r: nat): nat {
    if desired == [] || r >= |rows| then 0
    else
      Listings(rows, addresses, desired[..|desired| - 1], r)
      + if StaleIn(rows, addresses, desired[|desired| - 1], r) then 1 else 0
  }

  lemma {:induction false} VisitedOnce(rows: seq<Row>, addresses: Addresses, st: State, rs: seq<nat>,
                                       wanted: set<string>, r: nat)
    requires r < |rows| && NoDuplicates(rs)
    requires forall i | 0 <= i < |rs| :: rs[i] < |rows|
    ensures Times(VisitAll(rows, addresses, st, rs, wanted).actions)(r) ==
            Times(st.actions)(r) + if r in rs && Stale(addresses, rows[r], wanted) then 1 else 0
    decreases |rs|
  {
    if rs != [] {
      var front, last := rs[..|rs| - 1], rs[|rs| - 1];
      VisitedOnce(rows, addresses, st, front, wanted, r);
      var before := VisitAll(rows, addresses, st, front, wanted);
      assert r in rs <==> r in front || r == last by { assert rs == front + [last]; }
      if Stale(addresses, rows[last], wanted) {
        var own := rows[last].ip.value;
        Removing(rows, addresses, before, last, wanted, if Count(before.counts, own) <= 1 then [DeleteIp(own)] else []);
      }
    }
  }

  /** A row is deleted once for every listing it is stale in. */
  lemma {:induction false} RowGoesPerListing(rows: seq<Row>, addresses: Addresses, desired: seq<Desired>, r: nat)
    requires r < |rows|
    ensures multiset(Sweep(rows, addresses, Start(rows), desired).actions)[Unassign(r)] ==
            Listings(rows, addresses, desired, r)
    decreases |desired|
  {
    if desired != [] {
      var d, front := desired[|desired| - 1], desired[..|desired| - 1];
      RowGoesPerListing(rows, addresses, front, r);
      var before := Sweep(rows, addresses, Start(rows), front);
      VisitedOnce(rows, addresses, before, RowsOf(rows, d.iface), d.wanted, r);
      assert Times(before.actions)(r) == multiset(before.actions)[Unassign(r)];
      var after := Sweep(rows, addresses, Start(rows), desired);
      assert Times(after.actions)(r) == multiset(after.actions)[Unassign(r)];
    }
  }

  /** Every stale row goes exactly once if and only if no row is stale in two listings. */
  lemma StaleRowsGoOnceIff(rows: seq<Row>, addresses: Addresses, desired: seq<Desired>)
    ensures var actions := Sweep(rows, addresses, Start(rows), desired).actions;
            (forall r: nat | r < |rows| && Listings(rows, addresses, desired, r) > 0 :: multiset(actions)[Unassign(r)] == 1)
            <==> forall r: nat | r < |rows| :: Listings(rows, addresses, desired, r) <= 1
  {
    forall r: nat | r < |rows| {
      RowGoesPerListing(rows, addresses, desired, r);
    }
  }

  // ---------------------------------------------------------------- the addresses

  /** How many deletions of its assignments the listings ask for. */
  function Demanded(rows: seq<Row>, addresses: Addresses, desired: seq<Desired>, ip: string): nat {
    SumOver(rows, ip, |rows|, (r: nat) => Listings(rows, addresses, desired, r))
  }

  /** For any listings: the counter and the number of deletions of an address, in terms of what the listings ask for. */
  lemma AddressGoesPerDemand(rows: seq<Row>, addresses: Addresses, desired: seq<Desired>, ip: string)
    ensures var after := Sweep(rows, addresses, Start(rows), desired);
            var all, gone := Assigned(rows, ip), Demanded(rows, addresses, desired, ip);
            && Count(after.counts, ip) == AtLeastZero(all - gone)
            && multiset(after.actions)[DeleteIp(ip)] == if 0 < all <= gone then gone - all + 1 else 0
  {
    var after := Sweep(rows, addresses, Start(rows), desired);
    SweepTracks(rows, addresses, desired, ip);
    forall r: nat | r < |rows|
      ensures Times(after.actions)(r) == Listings(rows, addresses, desired, r)
    {
      RowGoesPerListing(rows, addresses, desired, r);
    }
    SumAlike(rows, ip, |rows|, Times(after.actions), (r: nat) => Listings(rows, addresses, desired, r));
  }

  /** The address has assignments, and all of them are stale in some listing. */
  ghost predicate LosesAll(rows: seq<Row>, addresses: Addresses, desired: seq<Desired>, ip: string) {
    Assigned(rows, ip) > 0
    && forall r: nat | r < |rows| && rows[r].ip == Some(ip) :: Listings(rows, addresses, desired, r) >= 1
  }

  /** No assignment of the address is stale in two listings. */
  ghost predicate ListedOnce(rows: seq<Row>, addresses: Addresses, desired: seq<Desired>, ip: string) {
    forall r: nat | r < |rows| && rows[r].ip == Some(ip) :: Listings(rows, addresses, desired, r) <= 1
  }

  /**
    An address is deleted once when all its assignments are, and never otherwise, exactly when the listings ask
    for fewer deletions than it has assignments, or for as many and none twice.
  */
  lemma AddressGoesWithItsLastAssignmentIff(rows: seq<Row>, addresses: Addresses, desired: seq<Desired>, ip: string)
    ensures var after := Sweep(rows, addresses, Start(rows), desired);
            var all, gone := Assigned(rows, ip), Demanded(rows, addresses, desired, ip);
            multiset(after.actions)[DeleteIp(ip)] == (if LosesAll(rows, addresses, desired, ip) then 1 else 0)
            <==> gone < all || (gone == all && ListedOnce(rows, addresses, desired, ip))
  {
    var f := (r: nat) => Listings(rows, addresses, desired, r);
    AddressGoesPerDemand(rows, addresses, desired, ip);
    SumAgainstCount(rows, ip, |rows|, f);
    if Assigned(rows, ip) == 0 {
      NoRowsNoDemand(rows, ip, |rows|, f);
    }
  }

  lemma {:induction false} NoRowsNoDemand(rows: seq<Row>, ip: string, n: nat, f: nat -> nat)
    requires n <= |rows| && SumOver(rows, ip, n, One()) == 0
    ensures SumOver(rows, ip, n, f) == 0
    ensures forall r: nat | r < n :: rows[r].ip != Some(ip)
  {
    if n > 0 {
      NoRowsNoDemand(rows, ip, n - 1, f);
    }
  }

  /** So it is kept wherever none of its assignments is listed twice. */
  lemma AddressGoesWithItsLastAssignment(rows: seq<Row>, addresses: Addresses, desired: seq<Desired>, ip: string)
    requires ListedOnce(rows, addresses, desired, ip)
    ensures var after := Sweep(rows, addresses, Start(rows), desired);
            && Count(after.counts, ip) == Assigned(rows, ip) - Demanded(rows, addresses, desired, ip)
            && multiset(after.actions)[DeleteIp(ip)] == if LosesAll(rows, addresses, desired, ip) then 1 else 0
  {
    AddressGoesPerDemand(rows, addresses, desired, ip);
    SumAgainstCount(rows, ip, |rows|, (r: nat) => Listings(rows, addresses, desired, r));
    AddressGoesWithItsLastAssignmentIff(rows, addresses, desired, ip);
  }

  // ---------------------------------------------------------------- from names to interfaces

  /** Both the snapshot's interfaces and the desired ones go by this label. */
  function Label(device: string, iface: string): string { device + ":" + iface }

  /** The label of a snapshot interface on a managed device; `devices` maps device ids to names. */
  function LabelOf(devices: map<string, string>, row: IfaceRow): Option<string> {
    if row.device.Some? && row.device.value in devices && devices[row.device.value] != "" && row.name.Some? && row.id.Some?
    then Some(Label(devices[row.device.value], row.name.value)) else None
  }

  /** `managed_iface_keyto_obj`, as interface ids; a later row replaces an earlier one. */
  function LabelsOf(devices: map<string, string>, rows: seq<IfaceRow>): map<string, string> {
    if rows == [] then map[]
    else
      var last := rows[|rows| - 1];
      var before := LabelsOf(devices, rows[..|rows| - 1]);
      if LabelOf(devices, last).Some? then before[LabelOf(devices, last).value := last.id.value] else before
  }

  /** The desired interfaces that the snapshot has. */
  function ListingOf(labels: map<string, string>, entries: seq<Entry>): seq<Desired> {
    if entries == [] then []
    else
      var last := entries[|entries| - 1];
      var key := Label(last.device, last.iface);
      ListingOf(labels, entries[..|entries| - 1])
      + if key in labels then [Desired(labels[key], last.wanted)] else []
  }

  predicate IsListing(labels: map<string, string>, e: Entry, d: Desired) {
    Label(e.device, e.iface) in labels && d == Desired(labels[Label(e.device, e.iface)], e.wanted)
  }

  lemma {:induction false} ListingComesFromEntry(labels: map<string, string>, entries: seq<Entry>, i: nat)
    requires i < |ListingOf(labels, entries)|
    ensures exists k :: 0 <= k < |entries| && IsListing(labels, entries[k], ListingOf(labels, entries)[i])
    decreases |entries|
  {
    var front, last := entries[..|entries| - 1], entries[|entries| - 1];
    var before := ListingOf(labels, front);
    if i < |before| {
      ListingComesFromEntry(labels, front, i);
      var k :| 0 <= k < |front| && IsListing(labels, front[k], before[i]);
      assert entries[k] == front[k];
    } else {
      assert IsListing(labels, last, ListingOf(labels, entries)[i]);
    }
  }

  /** `desired_ips` is a dict: no two items have the same device and interface. */
  ghost predicate DistinctKeys(entries: seq<Entry>) {
    forall i, j | 0 <= i < j < |entries| :: entries[i].device != entries[j].device || entries[i].iface != entries[j].iface
  }

  ghost predicate DistinctIds(rows: seq<IfaceRow>) {
    forall i, j | 0 <= i < j < |rows| && rows[i].id.Some? :: rows[i].id != rows[j].id
  }

  ghost predicate DistinctInterfaces(desired: seq<Desired>) {
    forall i, j | 0 <= i < j < |desired| :: desired[i].iface != desired[j].iface
  }

  predicate ColonFree(s: string) { ':' !in s }

  /** A device name without a colon ends at the label's first colon. */
  lemma LabelsDiffer(e: Entry, f: Entry)
    requires ColonFree(e.device) && ColonFree(f.device)
    requires Label(e.device, e.iface) == Label(f.device, f.iface)
    ensures e.device == f.device && e.iface == f.iface
  {
    var l := Label(e.device, e.iface);
    assert l[|e.device|] == ':' && l[|f.device|] == ':';
    assert forall i | 0 <= i < |e.device| :: l[i] == e.device[i];
    assert forall i | 0 <= i < |f.device| :: l[i] == f.device[i];
    assert |e.device| == |f.device|;
    assert e.device == l[..|e.device|] == f.device;
    assert e.iface == l[|e.device| + 1..] == f.iface;
  }

  lemma {:induction false} LabelComesFromRow(devices: map<string, string>, rows: seq<IfaceRow>, l: string)
    requires l in LabelsOf(devices, rows)
    ensures exists k :: 0 <= k < |rows| && LabelOf(devices, rows[k]) == Some(l)
                        && rows[k].id == Some(LabelsOf(devices, rows)[l])
    decreases |rows|
  {
    var last := |rows| - 1;
    if LabelOf(devices, rows[last]) != Some(l) {
      LabelComesFromRow(devices, rows[..last], l);
      var k :| 0 <= k < last && LabelOf(devices, rows[..last][k]) == Some(l)
               && rows[..last][k].id == Some(LabelsOf(devices, rows[..last])[l]);
      assert rows[k] == rows[..last][k];
    }
  }

  /** With distinct ids in the snapshot, different labels are different interfaces. */
  lemma LabelsAreInjective(devices: map<string, string>, rows: seq<IfaceRow>, l: string, m: string)
    requires DistinctIds(rows)
    requires l in LabelsOf(devices, rows) && m in LabelsOf(devices, rows)
    requires LabelsOf(devices, rows)[l] == LabelsOf(devices, rows)[m]
    ensures l == m
  {
    LabelComesFromRow(devices, rows, l);
    LabelComesFromRow(devices, rows, m);
    var i :| 0 <= i < |rows| && LabelOf(devices, rows[i]) == Some(l) && rows[i].id == Some(LabelsOf(devices, rows)[l]);
    var j :| 0 <= j < |rows| && LabelOf(devices, rows[j]) == Some(m) && rows[j].id == Some(LabelsOf(devices, rows)[m]);
    assert i == j;
  }

  /** Device names without colons make every interface be listed at most once. */
  lemma {:induction false} ListingIsDistinct(devices: map<string, string>, rows: seq<IfaceRow>, entries: seq<Entry>)
    requires DistinctIds(rows) && DistinctKeys(entries)
    requires forall e | e in entries :: ColonFree(e.device)
    ensures DistinctInterfaces(ListingOf(LabelsOf(devices, rows), entries))
    decreases |entries|
  {
    var labels := LabelsOf(devices, rows);
    if entries != [] {
      var front, last := entries[..|entries| - 1], entries[|entries| - 1];
      assert entries == front + [last];
      ListingIsDistinct(devices, rows, front);
      var before := ListingOf(labels, front);
      if Label(last.device, last.iface) in labels {
        forall i | 0 <= i < |before|
          ensures before[i].iface != labels[Label(last.device, last.iface)]
        {
          ListingComesFromEntry(labels, front, i);
          var k :| 0 <= k < |front| && IsListing(labels, front[k], before[i]);
          var e := front[k];
          assert entries[k] == e && e in entries && last in entries;
          if before[i].iface == labels[Label(last.device, last.iface)] {
            LabelsAreInjective(devices, rows, Label(e.device, e.iface), Label(last.device, last.iface));
            LabelsDiffer(e, last);
          }
        }
      }
    }
  }

  lemma {:induction false} DistinctIsListedOnce(rows: seq<Row>, addresses: Addresses, desired: seq<Desired>, r: nat)
    requires DistinctInterfaces(desired)
    ensures Listings(rows, addresses, desired, r) <= 1
    ensures Listings(rows, addresses, desired, r) == 1 ==>
              r < |rows| && exists i :: 0 <= i < |desired| && rows[r].iface == Some(desired[i].iface)
    decreases |desired|
  {
    if desired != [] && r < |rows| {
      var last := |desired| - 1;
      DistinctIsListedOnce(rows, addresses, desired[..last], r);
      if StaleIn(rows, addresses, desired[last], r) {
        forall i | 0 <= i < last
          ensures rows[r].iface != Some(desired[..last][i].iface)
        {
          assert desired[..last][i] == desired[i];
        }
        assert rows[r].iface == Some(desired[last].iface);
      } else if Listings(rows, addresses, desired[..last], r) == 1 {
        var i :| 0 <= i < last && rows[r].iface == Some(desired[..last][i].iface);
        assert desired[i] == desired[..last][i];
      }
    }
  }

  // ---------------------------------------------------------------- an interface listed twice

  /** Two keys of `desired_ips` share a label when a device name has a colon. */
  lemma KeysShareLabel(a: string, b: string, c: string, wanted: set<string>)
    ensures var entries := [Entry(a + ":" + b, c, wanted), Entry(a, b + ":" + c, wanted)];
            DistinctKeys(entries) && Label(a + ":" + b, c) == Label(a, b + ":" + c)
  {
    assert |a + ":" + b| != |a|;
  }

  /**
    Then both items list the one interface, its assignment is counted off twice, and an address it shares
    with another interface is deleted although that interface still has it.
  */
  lemma InterfaceListedTwice(a: string, b: string, c: string, wanted: set<string>, one: string, other: string, ip: string,
                             address: string)
    requires a != "" && one != other && address !in wanted
    ensures var labels := LabelsOf(map["d" := a], [IfaceRow(Some(one), Some("d"), Some(b + ":" + c))]);
            var desired := ListingOf(labels, [Entry(a + ":" + b, c, wanted), Entry(a, b + ":" + c, wanted)]);
            var rows := [Row(Some(one), Some(ip)), Row(Some(other), Some(ip))];
            var addresses := map[ip := Some(address)];
            && DeleteIp(ip) in Sweep(rows, addresses, Start(rows), desired).actions
            && Listings(rows, addresses, desired, 1) == 0
  {
    var row := IfaceRow(Some(one), Some("d"), Some(b + ":" + c));
    var labels := LabelsOf(map["d" := a], [row]);
    var e, f := Entry(a + ":" + b, c, wanted), Entry(a, b + ":" + c, wanted);
    var d := Desired(one, wanted);
    KeysShareLabel(a, b, c, wanted);
    assert LabelsOf(map["d" := a], []) == map[] && [row][..0] == [];
    assert labels == map[Label(a, b + ":" + c) := one];
    assert ListingOf(labels, [e, f]) == [d, d] by {
      assert [e, f][..1] == [e] && [e][..0] == [];
      assert ListingOf(labels, [e]) == [d];
    }
    TwiceOnOne([Row(Some(one), Some(ip)), Row(Some(other), Some(ip))], map[ip := Some(address)], d, ip);
  }

  lemma TwiceOnOne(rows: seq<Row>, addresses: Addresses, d: Desired, ip: string)
    requires |rows| == 2 && rows[0].ip == rows[1].ip == Some(ip)
    requires StaleIn(rows, addresses, d, 0) && rows[1].iface != Some(d.iface)
    ensures DeleteIp(ip) in Sweep(rows, addresses, Start(rows), [d, d]).actions
    ensures Listings(rows, addresses, [d, d], 1) == 0
  {
    assert [d, d][..1] == [d] && [d][..0] == [];
    assert Listings(rows, addresses, [d], 0) == 1 && Listings(rows, addresses, [d], 1) == 0;
    assert Listings(rows, addresses, [d, d], 0) == 2 && Listings(rows, addresses, [d, d], 1) == 0;
    AddressGoesPerDemand(rows, addresses, [d, d], ip);
    var f := (r: nat) => Listings(rows, addresses, [d, d], r);
    assert SumOver(rows, ip, 0, f) == 0;
    assert SumOver(rows, ip, 1, f) == 2;
    assert SumOver(rows, ip, 2, f) == 2;
    assert SumOver(rows, ip, 1, One()) == 1 && SumOver(rows, ip, 2, One()) == 2;
  }

  // ---------------------------------------------------------------- the loops

  /** `assignments_by_interface.get(iface, [])`. */
  function Assignments(byInterface: map<string, seq<nat>>, iface: string): seq<nat> {
    if iface in byInterface then byInterface[iface] else []
  }

  method ReadAddresses(ips: seq<IpRow>) returns (addresses: Addresses)
    ensures addresses == AddressesOf(ips)
  {
    addresses := map[];
    for n := 0 to |ips|
      invariant addresses == AddressesOf(ips[..n])
    {
      assert ips[..n + 1][..n] == ips[..n];
      if ips[n].id.Some? {
        addresses := addresses[ips[n].id.value := ips[n].address];
      }
    }
    assert ips[..|ips|] == ips;
  }

  ghost predicate Grouped(byInterface: map<string, seq<nat>>, rows: seq<Row>) {
    forall iface :: Assignments(byInterface, iface) == RowsOf(rows, iface)
  }

  function GroupOne(byInterface: map<string, seq<nat>>, row: Row, n: nat): map<string, seq<nat>> {
    if row.iface.None? then byInterface
    else byInterface[row.iface.value := Assignments(byInterface, row.iface.value) + [n]]
  }

  lemma GroupOneMore(byInterface: map<string, seq<nat>>, rows: seq<Row>, n: nat)
    requires n < |rows| && Grouped(byInterface, rows[..n])
    ensures Grouped(GroupOne(byInterface, rows[n], n), rows[..n + 1])
  {
    var longer, after := rows[..n + 1], GroupOne(byInterface, rows[n], n);
    assert longer[..n] == rows[..n] && longer[n] == rows[n];
    forall iface
      ensures Assignments(after, iface) == RowsOf(longer, iface)
    {
      assert Assignments(byInterface, iface) == RowsOf(rows[..n], iface);
    }
  }

  function CountOne(counts: map<string, int>, row: Row): map<string, int> {
    if row.ip.None? then counts else counts[row.ip.value := Count(counts, row.ip.value) + 1]
  }

  lemma CountOneMore(rows: seq<Row>, n: nat)
    requires n < |rows|
    ensures CountsOf(rows[..n + 1]) == CountOne(CountsOf(rows[..n]), rows[n])
  {
    assert rows[..n + 1][..n] == rows[..n];
  }

  /** Groups the assignments by interface and counts them by address. */
  method ReadAssignments(rows: seq<Row>) returns (byInterface: map<string, seq<nat>>, counts: map<string, int>)
    ensures Grouped(byInterface, rows)
    ensures counts == CountsOf(rows)
  {
    byInterface, counts := map[], map[];
    for n := 0 to |rows|
      invariant Grouped(byInterface, rows[..n])
      invariant counts == CountsOf(rows[..n])
    {
      GroupOneMore(byInterface, rows, n);
      CountOneMore(rows, n);
      if rows[n].iface.Some? {
        var iface := rows[n].iface.value;
        byInterface := byInterface[iface := Assignments(byInterface, iface) + [n]];
      }
      if rows[n].ip.Some? {
        var ip := rows[n].ip.value;
        counts := counts[ip := Count(counts, ip) + 1];
      }
    }
    assert rows[..|rows|] == rows;
  }

  /** The inner loop: the assignments of one interface. */
  method UnassignStale(rows: seq<Row>, addresses: Addresses, st: State, own: seq<nat>, wanted: set<string>)
    returns (counts: map<string, int>, actions: seq<Deletion>)
    requires forall i | 0 <= i < |own| :: own[i] < |rows|
    ensures State(counts, actions) == VisitAll(rows, addresses, st, own, wanted)
  {
    counts, actions := st.counts, st.actions;
    for k := 0 to |own|
      invariant State(counts, actions) == VisitAll(rows, addresses, st, own[..k], wanted)
    {
      assert own[..k + 1][..k] == own[..k];
      var row := rows[own[k]];
      if row.ip.None? || row.ip.value !in addresses { continue; }
      var ip := row.ip.value;
      var address := addresses[ip];
      if address.None? { continue; }
      if address.value !in wanted {
        actions := actions + [Unassign(own[k])];
        var left := if Count(counts, ip) - 1 < 0 then 0 else Count(counts, ip) - 1;
        counts := counts[ip := left];
        if left == 0 {
          actions := actions + [DeleteIp(ip)];
        }
      }
    }
    assert own[..|own|] == own;
  }

  /** The loop that gives the snapshot's interfaces their labels. */
  method ReadLabels(devices: map<string, string>, rows: seq<IfaceRow>) returns (labels: map<string, string>)
    ensures labels == LabelsOf(devices, rows)
  {
    labels := map[];
    for n := 0 to |rows|
      invariant labels == LabelsOf(devices, rows[..n])
    {
      assert rows[..n + 1][..n] == rows[..n];
      var row := rows[n];
      if row.device.None? || row.device.value !in devices { continue; }
      if row.name.None? || row.id.None? { continue; }
      var name := devices[row.device.value];
      if name == "" { continue; }
      labels := labels[Label(name, row.name.value) := row.id.value];
    }
    assert rows[..|rows|] == rows;
  }

  /** One round of the outer loop. */
  lemma EntryRound(rows: seq<Row>, addresses: Addresses, labels: map<string, string>, st: State, entries: seq<Entry>, n: nat)
    requires n < |entries|
    ensures var key := Label(entries[n].device, entries[n].iface);
            var before := Sweep(rows, addresses, st, ListingOf(labels, entries[..n]));
            Sweep(rows, addresses, st, ListingOf(labels, entries[..n + 1])) ==
              if key in labels then VisitAll(rows, addresses, before, RowsOf(rows, labels[key]), entries[n].wanted) else before
  {
    assert entries[..n + 1][..n] == entries[..n];
    var before := ListingOf(labels, entries[..n]);
    var key := Label(entries[n].device, entries[n].iface);
    if key in labels {
      var longer := before + [Desired(labels[key], entries[n].wanted)];
      assert ListingOf(labels, entries[..n + 1]) == longer;
      assert longer[..|longer| - 1] == before;
    } else {
      assert ListingOf(labels, entries[..n + 1]) == before;
    }
  }

  /** The outer loop: the desired interfaces in order. */
  method UnassignAll(rows: seq<Row>, addresses: Addresses, labels: map<string, string>, byInterface: map<string, seq<nat>>,
                     st: State, entries: seq<Entry>) returns (actions: seq<Deletion>)
    requires Grouped(byInterface, rows)
    ensures actions == Sweep(rows, addresses, st, ListingOf(labels, entries)).actions
  {
    var counts;
    counts, actions := st.counts, st.actions;
    for n := 0 to |entries|
      invariant State(counts, actions) == Sweep(rows, addresses, st, ListingOf(labels, entries[..n]))
    {
      EntryRound(rows, addresses, labels, st, entries, n);
      var key := Label(entries[n].device, entries[n].iface);
      if key !in labels { continue; }
      var own := Assignments(byInterface, labels[key]);
      counts, actions := UnassignStale(rows, addresses, State(counts, actions), own, entries[n].wanted);
    }
    assert entries[..|entries|] == entries;
  }

  /** What the prune deletes: every row once per listing it is stale in, and the addresses that lose all their rows. */
  ghost predicate IsExactPrune(rows: seq<Row>, addresses: Addresses, desired: seq<Desired>, actions: seq<Deletion>) {
    && (forall r: nat | r < |rows| :: multiset(actions)[Unassign(r)] == Listings(rows, addresses, desired, r))
    && (forall ip | ListedOnce(rows, addresses, desired, ip) ::
          multiset(actions)[DeleteIp(ip)] == if LosesAll(rows, addresses, desired, ip) then 1 else 0)
  }

  lemma SweepIsExact(rows: seq<Row>, addresses: Addresses, desired: seq<Desired>)
    ensures IsExactPrune(rows, addresses, desired, Sweep(rows, addresses, Start(rows), desired).actions)
  {
    forall r: nat | r < |rows| {
      RowGoesPerListing(rows, addresses, desired, r);
    }
    forall ip | ListedOnce(rows, addresses, desired, ip) {
      AddressGoesWithItsLastAssignment(rows, addresses, desired, ip);
    }
  }

  /** The address part of the prune, from the snapshot and the desired addresses by device and interface. */
  method PruneAddresses(devices: map<string, string>, ifaces: seq<IfaceRow>, rows: seq<Row>, ips: seq<IpRow>,
                        entries: seq<Entry>)
    returns (actions: seq<Deletion>)
    ensures var desired := ListingOf(LabelsOf(devices, ifaces), entries);
            && actions == Sweep(rows, AddressesOf(ips), Start(rows), desired).actions
            && IsExactPrune(rows, AddressesOf(ips), desired, actions)
  {
    var labels := ReadLabels(devices, ifaces);
    var addresses := ReadAddresses(ips);
    var byInterface, counts := ReadAssignments(rows);
    SweepIsExact(rows, addresses, ListingOf(labels, entries));
    actions := UnassignAll(rows, addresses, labels, byInterface, State(counts, []), entries);
  }

  /**
    With distinct snapshot ids and device names without colons: every stale assignment on a desired interface goes
    exactly once, and exactly the addresses that lose all their assignments go, once.
  */
  lemma PruneWithoutColons(devices: map<string, string>, ifaces: seq<IfaceRow>, rows: seq<Row>, addresses: Addresses,
                           entries: seq<Entry>)
    requires DistinctIds(ifaces) && DistinctKeys(entries)
    requires forall e | e in entries :: ColonFree(e.device)
    ensures var desired := ListingOf(LabelsOf(devices, ifaces), entries);
            var actions := Sweep(rows, addresses, Start(rows), desired).actions;
            && (forall r: nat | r < |rows| ::
                  multiset(actions)[Unassign(r)] == if Listings(rows, addresses, desired, r) > 0 then 1 else 0)
            && (forall ip :: multiset(actions)[DeleteIp(ip)] == if LosesAll(rows, addresses, desired, ip) then 1 else 0)
  {
    var desired := ListingOf(LabelsOf(devices, ifaces), entries);
    ListingIsDistinct(devices, ifaces, entries);
    SweepIsExact(rows, addresses, desired);
    forall r: nat {
      DistinctIsListedOnce(rows, addresses, desired, r);
    }
    assert forall ip :: ListedOnce(rows, addresses, desired, ip);
  }

  // ---------------------------------------------------------------- told from the snapshot

  /** Row `k` is the last one with this id. */
  ghost predicate IsLastIp(ips: seq<IpRow>, id: string, k: nat) {
    k < |ips| && ips[k].id == Some(id) && forall j | k < j < |ips| :: ips[j].id != Some(id)
  }

  /** The snapshot's interface `row` is the one a desired entry names. */
  predicate IsNamed(devices: map<string, string>, row: IfaceRow, name: string) {
    && row.id.Some? && row.name.Some? && row.device.Some? && row.device.value in devices
    && devices[row.device.value] != "" && devices[row.device.value] + ":" + row.name.value == name
  }

  ghost predicate IsLastNamed(devices: map<string, string>, rows: seq<IfaceRow>, name: string, k: nat) {
    k < |rows| && IsNamed(devices, rows[k], name) && forall j | k < j < |rows| :: !IsNamed(devices, rows[j], name)
  }

  /** The address with an id is the one of the last row that has it. */
  lemma {:induction false} AddressIsLastRow(ips: seq<IpRow>, id: string) returns (k: nat)
    ensures id in AddressesOf(ips) ==> IsLastIp(ips, id, k) && AddressesOf(ips)[id] == ips[k].address
    ensures id !in AddressesOf(ips) ==> forall j | 0 <= j < |ips| :: ips[j].id != Some(id)
    decreases |ips|
  {
    k := 0;
    if ips != [] {
      var n := |ips| - 1;
      if ips[n].id == Some(id) {
        k := n;
      } else {
        k := AddressIsLastRow(ips[..n], id);
        assert forall j | 0 <= j < n :: ips[..n][j] == ips[j];
      }
    }
  }

  /** The interface with a label is the last row that the label names. */
  lemma {:induction false} LabelIsLastRow(devices: map<string, string>, rows: seq<IfaceRow>, name: string) returns (k: nat)
    ensures name in LabelsOf(devices, rows) ==>
              IsLastNamed(devices, rows, name, k) && rows[k].id == Some(LabelsOf(devices, rows)[name])
    ensures name !in LabelsOf(devices, rows) ==> forall j | 0 <= j < |rows| :: !IsNamed(devices, rows[j], name)
    decreases |rows|
  {
    k := 0;
    if rows != [] {
      var n := |rows| - 1;
      assert LabelOf(devices, rows[n]) == Some(name) <==> IsNamed(devices, rows[n], name);
      if IsNamed(devices, rows[n], name) {
        k := n;
      } else {
        k := LabelIsLastRow(devices, rows[..n], name);
        assert forall j | 0 <= j < n :: rows[..n][j] == rows[j];
      }
    }
  }

  lemma {:induction false} EntryIsListed(labels: map<string, string>, entries: seq<Entry>, e: Entry)
    requires e in entries && Label(e.device, e.iface) in labels
    ensures Desired(labels[Label(e.device, e.iface)], e.wanted) in ListingOf(labels, entries)
    decreases |entries|
  {
    var front, last := entries[..|entries| - 1], entries[|entries| - 1];
    assert entries == front + [last];
    if e != last { EntryIsListed(labels, front, e); }
  }

  lemma {:induction false} ListedIffStale(rows: seq<Row>, addresses: Addresses, desired: seq<Desired>, r: nat)
    requires r < |rows|
    ensures Listings(rows, addresses, desired, r) > 0 <==> exists d :: d in desired && StaleIn(rows, addresses, d, r)
    decreases |desired|
  {
    if desired != [] {
      var front, last := desired[..|desired| - 1], desired[|desired| - 1];
      ListedIffStale(rows, addresses, front, r);
      assert desired == front + [last];
    }
  }

  /** A desired entry names the assignment's interface and does not want the assigned address. */
  ghost predicate IsUnwanted(devices: map<string, string>, ifaces: seq<IfaceRow>, ips: seq<IpRow>, row: Row, e: Entry) {
    && row.iface.Some? && row.ip.Some?
    && (exists k: nat :: IsLastNamed(devices, ifaces, e.device + ":" + e.iface, k) && ifaces[k].id == row.iface)
    && (exists k: nat :: IsLastIp(ips, row.ip.value, k) && ips[k].address.Some? && ips[k].address.value !in e.wanted)
  }

  lemma UnwantedIff(devices: map<string, string>, ifaces: seq<IfaceRow>, ips: seq<IpRow>, row: Row, e: Entry)
    ensures var labels := LabelsOf(devices, ifaces);
            var key := Label(e.device, e.iface);
            IsUnwanted(devices, ifaces, ips, row, e) <==>
              key in labels && row.iface == Some(labels[key]) && Stale(AddressesOf(ips), row, e.wanted)
  {
    var key := Label(e.device, e.iface);
    var k := LabelIsLastRow(devices, ifaces, key);
    if row.ip.Some? { var l := AddressIsLastRow(ips, row.ip.value); }
  }

  ghost predicate IsUnwantedBySome(devices: map<string, string>, ifaces: seq<IfaceRow>, ips: seq<IpRow>, row: Row, entries: seq<Entry>) {
    exists e :: e in entries && IsUnwanted(devices, ifaces, ips, row, e)
  }

  lemma ListedIffUnwanted(devices: map<string, string>, ifaces: seq<IfaceRow>, rows: seq<Row>, ips: seq<IpRow>,
                          entries: seq<Entry>, r: nat)
    requires r < |rows|
    ensures Listings(rows, AddressesOf(ips), ListingOf(LabelsOf(devices, ifaces), entries), r) > 0 <==>
            IsUnwantedBySome(devices, ifaces, ips, rows[r], entries)
  {
    var labels, addresses := LabelsOf(devices, ifaces), AddressesOf(ips);
    var desired := ListingOf(labels, entries);
    ListedIffStale(rows, addresses, desired, r);
    if IsUnwantedBySome(devices, ifaces, ips, rows[r], entries) {
      var e :| e in entries && IsUnwanted(devices, ifaces, ips, rows[r], e);
      UnwantedIff(devices, ifaces, ips, rows[r], e);
      EntryIsListed(labels, entries, e);
      assert StaleIn(rows, addresses, Desired(labels[Label(e.device, e.iface)], e.wanted), r);
    }
    if exists d :: d in desired && StaleIn(rows, addresses, d, r) {
      var d :| d in desired && StaleIn(rows, addresses, d, r);
      var i :| 0 <= i < |desired| && desired[i] == d;
      ListingComesFromEntry(labels, entries, i);
      var k :| 0 <= k < |entries| && IsListing(labels, entries[k], d);
      UnwantedIff(devices, ifaces, ips, rows[r], entries[k]);
    }
  }

  /** Told from the snapshot: an assignment is deleted exactly when a desired entry names its interface without wanting its address. */
  lemma AssignmentGoesIff(devices: map<string, string>, ifaces: seq<IfaceRow>, rows: seq<Row>, ips: seq<IpRow>,
                          entries: seq<Entry>, r: nat)
    requires r < |rows|
    ensures var actions := Sweep(rows, AddressesOf(ips), Start(rows), ListingOf(LabelsOf(devices, ifaces), entries)).actions;
            Unassign(r) in actions <==> IsUnwantedBySome(devices, ifaces, ips, rows[r], entries)
  {
    RowGoesPerListing(rows, AddressesOf(ips), ListingOf(LabelsOf(devices, ifaces), entries), r);
    ListedIffUnwanted(devices, ifaces, rows, ips, entries, r);
  }

  lemma {:induction false} AssignedIff(rows: seq<Row>, ip: string, n: nat)
    requires n <= |rows|
    ensures SumOver(rows, ip, n, One()) > 0 <==> exists r: nat :: r < n && rows[r].ip == Some(ip)
  {
    if n > 0 { AssignedIff(rows, ip, n - 1); }
  }

  /** And an address, with distinct ids and names without colons, exactly when it has assignments and all of them are. */
  lemma AddressGoesIff(devices: map<string, string>, ifaces: seq<IfaceRow>, rows: seq<Row>, ips: seq<IpRow>,
                       entries: seq<Entry>, ip: string)
    requires DistinctIds(ifaces) && DistinctKeys(entries)
    requires forall e | e in entries :: ColonFree(e.device)
    ensures var actions := Sweep(rows, AddressesOf(ips), Start(rows), ListingOf(LabelsOf(devices, ifaces), entries)).actions;
            DeleteIp(ip) in actions <==>
            && (exists r: nat :: r < |rows| && rows[r].ip == Some(ip))
            && forall r: nat | r < |rows| && rows[r].ip == Some(ip) :: IsUnwantedBySome(devices, ifaces, ips, rows[r], entries)
  {
    PruneWithoutColons(devices, ifaces, rows, AddressesOf(ips), entries);
    AssignedIff(rows, ip, |rows|);
    forall r: nat | r < |rows| {
      ListedIffUnwanted(devices, ifaces, rows, ips, entries, r);
    }
  }
}
