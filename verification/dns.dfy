/** Registration of a node's public A record (internal/dns/route53.go): the hosted zones and
    the local state file, changed step by step by Register and Delete. */
module Dns {
  import opened Wrappers

  datatype Record = Record(ip: string, ttl: int)

  datatype Saved = Saved(hostname: string, ip: string, zoneID: string)

  /** The A records of every zone, keyed by zone ID and hostname, and the state file. */
  datatype World = World(zone: map<(string, string), Record>, saved: Option<Saved>)

  /** What the outside gives one Register call: the public IP, whether the state file can be
      read, and whether the two list calls, the two change calls and the save go through. */
  datatype Calls = Calls(
    ip: Option<string>, readable: bool, listOld: bool, deletes: bool, list: bool, upserts: bool, saves: bool)

  const DEFAULT_TTL := 300

  function Current(w: World, zoneID: string, hostname: string, works: bool): Option<string> {
    if works && (zoneID, hostname) in w.zone && w.zone[(zoneID, hostname)].ip !in {"", "None"}
    then Some(w.zone[(zoneID, hostname)].ip) else None
  }

  /** Route 53 deletes a record only if the request names its exact value and TTL. */
  function AwsDelete(w: World, zoneID: string, hostname: string, r: Record, works: bool): Option<World> {
    if works && (zoneID, hostname) in w.zone && w.zone[(zoneID, hostname)] == r
    then Some(w.(zone := w.zone - {(zoneID, hostname)})) else None
  }

  function AwsUpsert(w: World, zoneID: string, hostname: string, r: Record, works: bool): Option<World> {
    if works then Some(w.(zone := w.zone[(zoneID, hostname) := r])) else None
  }

  datatype Action = NoAction | Registered | UpdatedIP | ChangedClient | AlreadyCurrent

  datatype Outcome = NoPublicIP | UpsertFailed | Done(action: Action)

  /** Delete: no error when the record is not found, also when the list call itself failed. */
  function DeleteSpec(w: World, hostname: string, zoneID: string, list: bool, works: bool): (World, bool) {
    match Current(w, zoneID, hostname, list)
    case None => (w, true)
    case Some(ip) =>
      match AwsDelete(w, zoneID, hostname, Record(ip, DEFAULT_TTL), works)
      case None => (w, false)
      case Some(w') => (w', true)
  }

  predicate Swaps(w: World, hostname: string, zoneID: string, c: Calls) {
    c.readable && w.saved.Some? && w.saved.value.hostname != hostname && w.saved.value.zoneID == zoneID
  }

  function RegisterSpec(w: World, hostname: string, zoneID: string, ttl: int, c: Calls): (World, Outcome) {
    if c.ip.None? then (w, NoPublicIP)
    else
      var ip := c.ip.value;
      var (cleared, deleted) :=
        if Swaps(w, hostname, zoneID, c)
        then DeleteSpec(w, w.saved.value.hostname, zoneID, c.listOld, c.deletes)
        else (w, false);
      var current := Current(cleared, zoneID, hostname, c.list);
      if current == Some(ip) then (cleared, Done(AlreadyCurrent))
      else (
        match AwsUpsert(cleared, zoneID, hostname, Record(ip, if ttl == 0 then DEFAULT_TTL else ttl), c.upserts)
        case None => (cleared, UpsertFailed)
        case Some(w') =>
          (if c.saves then w'.(saved := Some(Saved(hostname, ip, zoneID))) else w',
           Done(if deleted then ChangedClient else if current.Some? then UpdatedIP else Registered)))
  }

  /** A manager acting on the zones and its state file. */
  class Manager {
    var zone: map<(string, string), Record>
    var saved: Option<Saved>

    ghost function Abstract(): World
      reads this
    {
      World(zone, saved)
    }

    constructor (w: World)
      ensures Abstract() == w
    {
      zone, saved := w.zone, w.saved;
    }

    method Delete(hostname: string, zoneID: string, list: bool, works: bool) returns (ok: bool)
      modifies this`zone
      ensures (Abstract(), ok) == DeleteSpec(old(Abstract()), hostname, zoneID, list, works)
    {
      var ip := Current(World(zone, saved), zoneID, hostname, list);
      if ip.None? {
        return true;
      }
      if !works || zone[(zoneID, hostname)] != Record(ip.value, DEFAULT_TTL) {
        return false;
      }
      zone := zone - {(zoneID, hostname)};
      return true;
    }

    method Register(hostname: string, zoneID: string, ttl: int, c: Calls) returns (r: Outcome)
      modifies this
      ensures (Abstract(), r) == RegisterSpec(old(Abstract()), hostname, zoneID, ttl, c)
    {
      var effective := if ttl == 0 then DEFAULT_TTL else ttl;
      if c.ip.None? {
        return NoPublicIP;
      }
      var ip := c.ip.value;
      var action := NoAction;
      var previous := if c.readable then saved else None;
      if previous.Some? && previous.value.hostname != hostname && previous.value.zoneID == zoneID {
        var ok := Delete(previous.value.hostname, zoneID, c.listOld, c.deletes);
        if ok {
          action := ChangedClient;
        }
      }
      var current := Current(World(zone, saved), zoneID, hostname, c.list);
      if current == Some(ip) {
        return Done(AlreadyCurrent);
      }
      if !c.upserts {
        return UpsertFailed;
      }
      zone := zone[(zoneID, hostname) := Record(ip, effective)];
      if action == NoAction {
        action := if current.Some? then UpdatedIP else Registered;
      }
      if c.saves {
        saved := Some(Saved(hostname, ip, zoneID));
      }
      return Done(action);
    }
  }

  /** One start of the agent: its hostname then, and its public IP. */
  datatype Start = Start(hostname: string, ip: string)

  predicate ValidIP(ip: string) {
    ip !in {"", "None"}
  }

  function AllWork(ip: string): Calls {
    Calls(Some(ip), true, true, true, true, true, true)
  }

  /** A sequence of registrations in one zone, every outside call succeeding. */
  function RegisterAll(w: World, zoneID: string, ttl: int, starts: seq<Start>): World
    decreases |starts|
  {
    if starts == [] then w
    else
      var first := RegisterSpec(w, starts[0].hostname, zoneID, ttl, AllWork(starts[0].ip));
      RegisterAll(first.0, zoneID, ttl, starts[1..])
  }

  ghost predicate Names(starts: seq<Start>, hostname: string) {
    exists i :: 0 <= i < |starts| && starts[i].hostname == hostname
  }

  /** Of the node's names the zone holds `s`'s alone, with its IP; the state file says the same;
      all other records are those of `before`. */
  ghost predicate InStep(before: World, w: World, zoneID: string, starts: seq<Start>, s: Start) {
    && (zoneID, s.hostname) in w.zone && w.zone[(zoneID, s.hostname)].ip == s.ip
    && w.saved == Some(Saved(s.hostname, s.ip, zoneID))
    && (forall h :: Names(starts, h) && h != s.hostname ==> (zoneID, h) !in w.zone)
    && (forall k: (string, string) :: !(k.0 == zoneID && Names(starts, k.1)) ==>
          (k in w.zone <==> k in before.zone) && (k in w.zone ==> w.zone[k] == before.zone[k]))
  }

  ghost predicate Fresh(w: World, zoneID: string, starts: seq<Start>) {
    w.saved == None && forall h :: Names(starts, h) ==> (zoneID, h) !in w.zone
  }

  lemma FirstRegister(w: World, zoneID: string, ttl: int, starts: seq<Start>, s: Start)
    requires Fresh(w, zoneID, starts) && Names(starts, s.hostname) && ValidIP(s.ip)
    ensures var w' := RegisterSpec(w, s.hostname, zoneID, ttl, AllWork(s.ip)).0;
            InStep(w, w', zoneID, starts, s)
            && w'.zone[(zoneID, s.hostname)].ttl == if ttl == 0 then DEFAULT_TTL else ttl
  {
  }

  lemma NextRegister(before: World, w: World, zoneID: string, ttl: int, starts: seq<Start>, p: Start, s: Start)
    requires InStep(before, w, zoneID, starts, p) && w.zone[(zoneID, p.hostname)].ttl == DEFAULT_TTL
    requires ttl in {0, DEFAULT_TTL} && Names(starts, p.hostname) && Names(starts, s.hostname)
    requires ValidIP(p.ip) && ValidIP(s.ip)
    ensures var w' := RegisterSpec(w, s.hostname, zoneID, ttl, AllWork(s.ip)).0;
            InStep(before, w', zoneID, starts, s) && w'.zone[(zoneID, s.hostname)].ttl == DEFAULT_TTL
  {
    var w' := RegisterSpec(w, s.hostname, zoneID, ttl, AllWork(s.ip)).0;
    assert w.zone[(zoneID, p.hostname)] == Record(p.ip, DEFAULT_TTL);
  }

  lemma {:induction false} TrackedFrom(
    before: World, w: World, zoneID: string, ttl: int, starts: seq<Start>, p: Start, rest: seq<Start>)
    requires InStep(before, w, zoneID, starts, p) && w.zone[(zoneID, p.hostname)].ttl == DEFAULT_TTL
    requires ttl in {0, DEFAULT_TTL} && Names(starts, p.hostname) && ValidIP(p.ip)
    requires forall i :: 0 <= i < |rest| ==> Names(starts, rest[i].hostname) && ValidIP(rest[i].ip)
    ensures InStep(before, RegisterAll(w, zoneID, ttl, rest), zoneID, starts,
                   if rest == [] then p else rest[|rest| - 1])
    decreases |rest|
  {
    if rest != [] {
      var s := rest[0];
      NextRegister(before, w, zoneID, ttl, starts, p, s);
      TrackedFrom(before, RegisterSpec(w, s.hostname, zoneID, ttl, AllWork(s.ip)).0, zoneID, ttl, starts, s, rest[1..]);
    }
  }

  /** From a zone without the node's names and no state file, after any sequence of successful
      registrations the zone holds exactly the last name, with the last IP, as the state file. */
  lemma Tracked(w: World, zoneID: string, ttl: int, starts: seq<Start>)
    requires ttl in {0, DEFAULT_TTL} && starts != [] && Fresh(w, zoneID, starts)
    requires forall i :: 0 <= i < |starts| ==> ValidIP(starts[i].ip)
    ensures InStep(w, RegisterAll(w, zoneID, ttl, starts), zoneID, starts, starts[|starts| - 1])
  {
    var s := starts[0];
    assert forall i :: 0 <= i < |starts| ==> Names(starts, starts[i].hostname);
    FirstRegister(w, zoneID, ttl, starts, s);
    TrackedFrom(w, RegisterSpec(w, s.hostname, zoneID, ttl, AllWork(s.ip)).0, zoneID, ttl, starts, s, starts[1..]);
  }

  ghost predicate AlwaysTracked(ttl: int) {
    forall w: World, zoneID: string, starts: seq<Start> ::
      starts != [] && Fresh(w, zoneID, starts) && (forall i :: 0 <= i < |starts| ==> ValidIP(starts[i].ip)) ==>
        InStep(w, RegisterAll(w, zoneID, ttl, starts), zoneID, starts, starts[|starts| - 1])
  }

  /** Delete asks for TTL 300 whatever TTL Register used, so a configured TTL keeps zone and
      state file in step exactly when it is 300 or left out. */
  lemma TrackedExactly(ttl: int)
    ensures AlwaysTracked(ttl) <==> ttl in {0, DEFAULT_TTL}
  {
    if ttl in {0, DEFAULT_TTL} {
      forall w: World, zoneID: string, starts: seq<Start> |
        starts != [] && Fresh(w, zoneID, starts) && (forall i :: 0 <= i < |starts| ==> ValidIP(starts[i].ip))
        ensures InStep(w, RegisterAll(w, zoneID, ttl, starts), zoneID, starts, starts[|starts| - 1])
      {
        Tracked(w, zoneID, ttl, starts);
      }
    } else {
      TwoRecordsLeft(ttl);
    }
  }

  lemma TwoRecordsLeft(ttl: int)
    requires ttl !in {0, DEFAULT_TTL}
    ensures !AlwaysTracked(ttl)
  {
    var ip := "192.0.2.1";
    var geth, besu := Start("n-geth.example", ip), Start("n-besu.example", ip);
    var starts := [geth, besu];
    var w := World(map[], None);
    var w1 := RegisterSpec(w, geth.hostname, "Z", ttl, AllWork(ip)).0;
    var w2 := RegisterSpec(w1, besu.hostname, "Z", ttl, AllWork(ip)).0;
    assert starts[1..] == [besu] && [besu][1..] == [];
    assert RegisterAll(w1, "Z", ttl, [besu]) == RegisterAll(w2, "Z", ttl, []) == w2;
    assert RegisterAll(w, "Z", ttl, starts) == RegisterAll(w1, "Z", ttl, [besu]);
    assert starts[0].hostname == geth.hostname && Names(starts, geth.hostname);
    assert geth.hostname[2] != besu.hostname[2];
    assert ("Z", geth.hostname) in w1.zone && w1.zone[("Z", geth.hostname)] == Record(ip, ttl);
    assert w1.saved == Some(Saved(geth.hostname, ip, "Z"));
    assert ("Z", geth.hostname) in w2.zone;
    assert !InStep(w, w2, "Z", starts, besu);
  }

  /** One successful call on any state: the zone then says what was asked, and the state file
      follows exactly when the record was not already current or the file said so before. */
  lemma StateFileFollowsExactly(w: World, hostname: string, zoneID: string, ttl: int, ip: string)
    requires ValidIP(ip)
    ensures var (w', r) := RegisterSpec(w, hostname, zoneID, ttl, AllWork(ip));
            && (zoneID, hostname) in w'.zone && w'.zone[(zoneID, hostname)].ip == ip
            && (w'.saved == Some(Saved(hostname, ip, zoneID)) <==>
                  !((zoneID, hostname) in w.zone && w.zone[(zoneID, hostname)].ip == ip)
                  || w.saved == Some(Saved(hostname, ip, zoneID)))
  {
  }

  // Every call, however the outside calls go, said of the zone and the state file before it.

  /** The list call shows the record with the IP. */
  predicate AlreadyThere(w: World, hostname: string, zoneID: string, c: Calls) {
    && c.ip.Some? && ValidIP(c.ip.value) && c.list
    && (zoneID, hostname) in w.zone && w.zone[(zoneID, hostname)].ip == c.ip.value
  }

  predicate Upserted(w: World, hostname: string, zoneID: string, c: Calls) {
    c.ip.Some? && !AlreadyThere(w, hostname, zoneID, c) && c.upserts
  }

  /** The state file can be read and is for another name in the zone. */
  predicate Renames(w: World, hostname: string, zoneID: string, c: Calls) {
    && c.ip.Some? && c.readable
    && w.saved.Some? && w.saved.value.zoneID == zoneID && w.saved.value.hostname != hostname
  }

  /** The list call shows a record of that name. */
  predicate OldShows(w: World, zoneID: string, c: Calls) {
    && c.listOld && w.saved.Some? && (zoneID, w.saved.value.hostname) in w.zone
    && ValidIP(w.zone[(zoneID, w.saved.value.hostname)].ip)
  }

  /** And deleting it under TTL 300 works. */
  predicate OldGoes(w: World, zoneID: string, c: Calls) {
    OldShows(w, zoneID, c) && c.deletes && w.zone[(zoneID, w.saved.value.hostname)].ttl == 300
  }

  /** What a call makes of one record. */
  lemma RecordLeft(w: World, hostname: string, zoneID: string, ttl: int, c: Calls, k: (string, string))
    ensures var w', key := RegisterSpec(w, hostname, zoneID, ttl, c).0, (zoneID, hostname);
            && (k in w'.zone <==>
                  if k == key then k in w.zone || Upserted(w, hostname, zoneID, c)
                  else k in w.zone
                       && !(Renames(w, hostname, zoneID, c) && OldGoes(w, zoneID, c)
                            && k == (zoneID, w.saved.value.hostname)))
            && (k in w'.zone ==>
                  w'.zone[k] == if k == key && Upserted(w, hostname, zoneID, c)
                                then Record(c.ip.value, if ttl == 0 then 300 else ttl) else w.zone[k])
  {
  }

  /** What a call leaves: the requested record only ever changes to that IP and TTL, by an upsert;
      of the others only the one of the previous name can go; the state file only ever changes to
      what was upserted. */
  lemma RegisterLeaves(w: World, hostname: string, zoneID: string, ttl: int, c: Calls)
    ensures var w', key := RegisterSpec(w, hostname, zoneID, ttl, c).0, (zoneID, hostname);
            && (forall k :: k in w'.zone <==>
                  if k == key then k in w.zone || Upserted(w, hostname, zoneID, c)
                  else k in w.zone
                       && !(Renames(w, hostname, zoneID, c) && OldGoes(w, zoneID, c)
                            && k == (zoneID, w.saved.value.hostname)))
            && (forall k :: k in w'.zone ==>
                  if k == key && Upserted(w, hostname, zoneID, c)
                  then w'.zone[k] == Record(c.ip.value, if ttl == 0 then 300 else ttl)
                  else k in w.zone && w'.zone[k] == w.zone[k])
            && w'.saved == if Upserted(w, hostname, zoneID, c) && c.saves
                           then Some(Saved(hostname, c.ip.value, zoneID)) else w.saved
  {
    forall k: (string, string) {
      RecordLeft(w, hostname, zoneID, ttl, c, k);
    }
    SavedLeft(w, hostname, zoneID, ttl, c);
  }

  lemma SavedLeft(w: World, hostname: string, zoneID: string, ttl: int, c: Calls)
    ensures RegisterSpec(w, hostname, zoneID, ttl, c).0.saved
         == if Upserted(w, hostname, zoneID, c) && c.saves then Some(Saved(hostname, c.ip.value, zoneID)) else w.saved
  {
  }

  /** What it answers. "changed-client" means that no error came of deleting the previous record,
      also because none was found. */
  lemma RegisterAnswers(w: World, hostname: string, zoneID: string, ttl: int, c: Calls)
    ensures var r, key := RegisterSpec(w, hostname, zoneID, ttl, c).1, (zoneID, hostname);
            var changed := Renames(w, hostname, zoneID, c) && (OldShows(w, zoneID, c) ==> OldGoes(w, zoneID, c));
            var shown := c.list && key in w.zone && ValidIP(w.zone[key].ip);
            && (r == NoPublicIP <==> c.ip.None?)
            && (r == UpsertFailed <==> c.ip.Some? && !AlreadyThere(w, hostname, zoneID, c) && !c.upserts)
            && (r == Done(AlreadyCurrent) <==> AlreadyThere(w, hostname, zoneID, c))
            && (r == Done(ChangedClient) <==> Upserted(w, hostname, zoneID, c) && changed)
            && (r == Done(UpdatedIP) <==> Upserted(w, hostname, zoneID, c) && !changed && shown)
            && (r == Done(Registered) <==> Upserted(w, hostname, zoneID, c) && !changed && !shown)
  {
  }

  /** One call of Register among others that may fail. */
  datatype Attempt = Attempt(hostname: string, calls: Calls)

  /** Of the names the zone holds at most the one in the state file, under TTL 300. */
  ghost predicate Kept(w: World, zoneID: string, names: set<string>) {
    && (w.saved.Some? ==> w.saved.value.zoneID == zoneID && w.saved.value.hostname in names)
    && forall h :: h in names && (zoneID, h) in w.zone ==>
         && w.saved.Some? && w.saved.value.hostname == h
         && ValidIP(w.zone[(zoneID, h)].ip) && w.zone[(zoneID, h)].ttl == 300
  }

  /** A new name is upserted, and either the save fails or the previous record, which is still
      there, is not deleted: the state file cannot be read, or the list or delete call fails. */
  predicate Strands(w: World, zoneID: string, a: Attempt) {
    var c := a.calls;
    && Upserted(w, a.hostname, zoneID, c)
    && (w.saved.Some? ==> w.saved.value.hostname != a.hostname)
    && (!c.saves
        || (w.saved.Some? && (zoneID, w.saved.value.hostname) in w.zone && !(c.readable && c.listOld && c.deletes)))
  }

  ghost predicate Proper(zoneID: string, ttl: int, names: set<string>, a: Attempt) {
    ttl in {0, 300} && a.hostname in names && (a.calls.ip.Some? ==> ValidIP(a.calls.ip.value))
  }

  lemma KeptExactly(w: World, zoneID: string, ttl: int, names: set<string>, a: Attempt)
    requires Kept(w, zoneID, names) && Proper(zoneID, ttl, names, a)
    ensures Kept(RegisterSpec(w, a.hostname, zoneID, ttl, a.calls).0, zoneID, names) <==> !Strands(w, zoneID, a)
  {
    RegisterLeaves(w, a.hostname, zoneID, ttl, a.calls);
    var w' := RegisterSpec(w, a.hostname, zoneID, ttl, a.calls).0;
    if Strands(w, zoneID, a) {
      assert (zoneID, a.hostname) in w'.zone;
      if w.saved.Some? {
        assert (zoneID, w.saved.value.hostname) in w.zone && a.calls.saves ==>
            (zoneID, w.saved.value.hostname) in w'.zone;
      }
    }
  }

  /** Every state of the run keeps the names in step. */
  ghost predicate AlwaysKept(w: World, zoneID: string, ttl: int, names: set<string>, attempts: seq<Attempt>)
    decreases |attempts|
  {
    && Kept(w, zoneID, names)
    && (attempts != [] ==>
          AlwaysKept(RegisterSpec(w, attempts[0].hostname, zoneID, ttl, attempts[0].calls).0, zoneID, ttl, names,
                     attempts[1..]))
  }

  predicate SomeStrands(w: World, zoneID: string, ttl: int, attempts: seq<Attempt>)
    decreases |attempts|
  {
    && attempts != []
    && (Strands(w, zoneID, attempts[0])
        || SomeStrands(RegisterSpec(w, attempts[0].hostname, zoneID, ttl, attempts[0].calls).0, zoneID, ttl,
                       attempts[1..]))
  }

  /** Over any calls, failing in any way: a name of the node is in the zone and not in the state file
      in some state exactly when some call strands one, by a failed save or a failed delete. */
  lemma {:induction false} KeptUnlessStranded(
    w: World, zoneID: string, ttl: int, names: set<string>, attempts: seq<Attempt>)
    requires Kept(w, zoneID, names)
    requires forall i :: 0 <= i < |attempts| ==> Proper(zoneID, ttl, names, attempts[i])
    ensures AlwaysKept(w, zoneID, ttl, names, attempts) <==> !SomeStrands(w, zoneID, ttl, attempts)
    decreases |attempts|
  {
    if attempts != [] {
      KeptExactly(w, zoneID, ttl, names, attempts[0]);
      if !Strands(w, zoneID, attempts[0]) {
        KeptUnlessStranded(RegisterSpec(w, attempts[0].hostname, zoneID, ttl, attempts[0].calls).0, zoneID, ttl, names,
                           attempts[1..]);
      }
    }
  }
}
