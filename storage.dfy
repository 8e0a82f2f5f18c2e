/** `MemStorage`: the in-process blacklist keyed by IP and the visit log keyed by
    an auto-increment id, each with its own id counter. */
module Storage {
  import opened Wrappers

  /** A reading of the server clock (`new Date()`); never interpreted. */
  type Timestamp = nat

  datatype InsertBlacklistedIp = InsertBlacklistedIp(ipAddress: string, userAgent: Option<string>)

  datatype BlacklistedIp = BlacklistedIp(
    id: nat, ipAddress: string, userAgent: Option<string>, createdAt: Timestamp)

  datatype InsertVisitorLog = InsertVisitorLog(
    ipAddress: string, userAgent: Option<string>, isBot: bool,
    parameters: Option<string>, redirectedTo: Option<string>)

  datatype VisitorLog = VisitorLog(
    id: nat, ipAddress: string, userAgent: Option<string>, isBot: bool,
    parameters: Option<string>, redirectedTo: Option<string>, timestamp: Timestamp)

  /** Every blacklist entry is stored under its own IP. */
  ghost predicate KeyedByIp(m: map<string, BlacklistedIp>)
  {
    forall ip :: ip in m ==> m[ip].ipAddress == ip
  }

  /** With entries keyed by their IP, scanning the values for an IP (what
      `isIpBlacklisted` does) is the same as looking the IP up as a key. */
  lemma ValueScanIsKeyLookup(m: map<string, BlacklistedIp>, ip: string)
    requires KeyedByIp(m)
    ensures ip in m <==> exists e :: e in m.Values && e.ipAddress == ip
  {
  }

  /** The log holds exactly the ids 1 .. next-1, each entry under its own id. */
  ghost predicate DenseLog(logs: map<nat, VisitorLog>, next: nat)
  {
    && (forall id :: id in logs <==> 1 <= id < next)
    && (forall id :: id in logs ==> logs[id].id == id)
  }

  /** A log holding the ids 1 .. next-1 has next-1 entries. */
  lemma {:induction false} DenseLogSize(logs: map<nat, VisitorLog>, next: nat)
    requires 1 <= next
    requires forall id :: id in logs <==> 1 <= id < next
    ensures |logs| == next - 1
    decreases next
  {
    if next > 1 {
      var rest := logs - {next - 1};
      assert next - 1 in logs;
      assert |rest| == |logs| - 1;
      DenseLogSize(rest, next - 1);
    } else {
      assert logs.Keys == {};
    }
  }

  class MemStorage {
    var blacklist: map<string, BlacklistedIp>
    var logs: map<nat, VisitorLog>
    var blacklistCurrentId: nat
    var logsCurrentId: nat

    ghost predicate Valid()
      reads this
    {
      && 1 <= blacklistCurrentId
      && 1 <= logsCurrentId
      && KeyedByIp(blacklist)
      && (forall ip :: ip in blacklist ==> blacklist[ip].id < blacklistCurrentId)
      && DenseLog(logs, logsCurrentId)
    }

    constructor ()
      ensures Valid()
      ensures blacklist == map[] && logs == map[]
      ensures blacklistCurrentId == 1 && logsCurrentId == 1
    {
      blacklist := map[];
      logs := map[];
      blacklistCurrentId := 1;
      logsCurrentId := 1;
    }

    /** The number of visits logged so far: one per `LogVisitor` call. */
    function LogCount(): (n: nat)
      reads this
      requires Valid()
      ensures n == logsCurrentId - 1
    {
      DenseLogSize(logs, logsCurrentId);
      |logs|
    }

    /** `isIpBlacklisted`: scans the stored entries for one with this IP. */
    method IsIpBlacklisted(ipAddress: string) returns (found: bool)
      requires Valid()
      ensures found <==> ipAddress in blacklist
    {
      var rest := blacklist.Values;
      found := false;
      while rest != {} && !found
        invariant rest <= blacklist.Values
        invariant found ==> ipAddress in blacklist
        invariant !found ==> forall e :: e in blacklist.Values - rest ==> e.ipAddress != ipAddress
        decreases rest
      {
        var e :| e in rest;
        if e.ipAddress == ipAddress {
          ValueScanIsKeyLookup(blacklist, ipAddress);
          found := true;
        }
        rest := rest - {e};
      }
      if !found {
        ValueScanIsKeyLookup(blacklist, ipAddress);
      }
    }

    /** `blacklistIp`: stores a fresh entry under its IP, overwriting any earlier
        one; nothing else in the store changes. */
    method BlacklistIp(insert: InsertBlacklistedIp, now: Timestamp) returns (entry: BlacklistedIp)
      requires Valid()
      modifies this
      ensures Valid()
      ensures entry == BlacklistedIp(old(blacklistCurrentId), insert.ipAddress, insert.userAgent, now)
      ensures blacklist == old(blacklist)[insert.ipAddress := entry]
      ensures blacklistCurrentId == old(blacklistCurrentId) + 1
      ensures logs == old(logs) && logsCurrentId == old(logsCurrentId)
      ensures insert.ipAddress in blacklist
      ensures old(blacklist).Keys <= blacklist.Keys
      ensures forall ip :: ip in old(blacklist) && ip != insert.ipAddress ==> blacklist[ip] == old(blacklist)[ip]
    {
      var id := blacklistCurrentId;
      blacklistCurrentId := blacklistCurrentId + 1;
      entry := BlacklistedIp(id, insert.ipAddress, insert.userAgent, now);
      blacklist := blacklist[insert.ipAddress := entry];
    }

    /** `logVisitor`: appends the entry under the next id; the id is larger than
        every id already in the log. */
    method LogVisitor(insert: InsertVisitorLog, now: Timestamp) returns (log: VisitorLog)
      requires Valid()
      modifies this
      ensures Valid()
      ensures log == VisitorLog(old(logsCurrentId), insert.ipAddress, insert.userAgent, insert.isBot,
                                insert.parameters, insert.redirectedTo, now)
      ensures logs == old(logs)[log.id := log]
      ensures logsCurrentId == old(logsCurrentId) + 1
      ensures log.id !in old(logs) && forall id :: id in old(logs) ==> id < log.id
      ensures LogCount() == old(LogCount()) + 1
      ensures blacklist == old(blacklist) && blacklistCurrentId == old(blacklistCurrentId)
    {
      var id := logsCurrentId;
      logsCurrentId := logsCurrentId + 1;
      log := VisitorLog(id, insert.ipAddress, insert.userAgent, insert.isBot,
                        insert.parameters, insert.redirectedTo, now);
      logs := logs[id := log];
    }
  }

  /** Blacklisting one IP twice leaves a single entry for it, the second one,
      and a scan then finds the IP. */
  method BlacklistTwice(store: MemStorage, insert: InsertBlacklistedIp, t1: Timestamp, t2: Timestamp)
    returns (first: BlacklistedIp, second: BlacklistedIp, found: bool)
    requires store.Valid()
    modifies store
    ensures store.Valid()
    ensures store.blacklist == old(store.blacklist)[insert.ipAddress := second]
    ensures second.id == first.id + 1 && second.createdAt == t2
    ensures store.blacklist.Keys == old(store.blacklist).Keys + {insert.ipAddress}
    ensures found
  {
    first := store.BlacklistIp(insert, t1);
    second := store.BlacklistIp(insert, t2);
    found := store.IsIpBlacklisted(insert.ipAddress);
  }
}
