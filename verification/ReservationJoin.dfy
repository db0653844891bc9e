/**
 * Joining VMs with the capacity reservations of their group, size and physical zone through
 * indexes built in one pass.
 */
module ReservationJoin {
  import opened Options
  import opened Text
  import Decimals

  /** Logical to physical zones of one (subscription, location). */
  type Mappings = map<(string, string), map<string, string>>

  class ReservationRow {
    const groupId: string
    const groupName: string
    const reservationId: string
    const subscription: string
    const location: string
    const logicalZone: string
    const size: string
    var physicalZone: Option<string>
    var resolved: bool

    /** What the join reads of this row. */
    function Value(): Reservation
      reads this
    {
      Reservation(Norm(groupId), groupName, Norm(reservationId), Norm(size), physicalZone, resolved)
    }
  }

  class VmRow {
    const groupId: string
    const subscription: string
    const location: string
    const logicalZone: string
    const size: string
    var physicalZone: Option<string>
    var resolved: bool
    var groupName: Option<string>
    var candidates: Option<seq<string>>
  }

  datatype Reservation = Reservation(group: string, name: string, id: string, size: string, zone: Option<string>,
      resolved: bool)

  function PhysicalZone(mappings: Mappings, subscription: string, location: string, logicalZone: string): Option<string>
  {
    var pair := (Norm(subscription), Norm(location));
    if Strip(logicalZone) == "" || pair !in mappings || Strip(logicalZone) !in mappings[pair] then None
    else Some(mappings[pair][Strip(logicalZone)])
  }

  /** A row without a zone is resolved; a zonal row is when the mapping names a physical zone. */
  predicate Resolved(mappings: Mappings, subscription: string, location: string, logicalZone: string) {
    Strip(logicalZone) == "" || PhysicalZone(mappings, subscription, location, logicalZone) !in {None, Some("")}
  }

  /**
   * A row without a zone is resolved and has no physical one; any other has the one its subscription and location
   * map it to, and is resolved if that is not empty.
   */
  ghost predicate ZoneTells(mappings: Mappings, subscription: string, location: string, logicalZone: string,
      physicalZone: Option<string>, resolved: bool)
  {
    var pair, zone := (Norm(subscription), Norm(location)), Strip(logicalZone);
    if zone == "" then physicalZone == None && resolved
    else if pair in mappings && zone in mappings[pair]
    then physicalZone == Some(mappings[pair][zone]) && (resolved <==> mappings[pair][zone] != "")
    else physicalZone == None && !resolved
  }

  lemma ZonesTell(mappings: Mappings, subscription: string, location: string, logicalZone: string)
    ensures ZoneTells(mappings, subscription, location, logicalZone,
                      PhysicalZone(mappings, subscription, location, logicalZone),
                      Resolved(mappings, subscription, location, logicalZone))
  {
  }

  method ApplyPhysicalZones(vms: seq<VmRow>, reservations: seq<ReservationRow>, mappings: Mappings)
    modifies vms, reservations
    ensures forall v | v in vms ::
              && v.physicalZone == PhysicalZone(mappings, v.subscription, v.location, v.logicalZone)
              && v.resolved == Resolved(mappings, v.subscription, v.location, v.logicalZone)
              && v.groupName == old(v.groupName) && v.candidates == old(v.candidates)
    ensures forall r | r in reservations ::
              && r.physicalZone == PhysicalZone(mappings, r.subscription, r.location, r.logicalZone)
              && r.resolved == Resolved(mappings, r.subscription, r.location, r.logicalZone)
    ensures forall v | v in vms ::
              ZoneTells(mappings, v.subscription, v.location, v.logicalZone, v.physicalZone, v.resolved)
    ensures forall r | r in reservations ::
              ZoneTells(mappings, r.subscription, r.location, r.logicalZone, r.physicalZone, r.resolved)
  {
    forall subscription, location, zone { ZonesTell(mappings, subscription, location, zone); }
    for k := 0 to |vms|
      invariant forall v | v in vms[..k] ::
                  && v.physicalZone == PhysicalZone(mappings, v.subscription, v.location, v.logicalZone)
                  && v.resolved == Resolved(mappings, v.subscription, v.location, v.logicalZone)
      invariant forall v | v in vms :: v.groupName == old(v.groupName) && v.candidates == old(v.candidates)
    {
      var v := vms[k];
      v.physicalZone := PhysicalZone(mappings, v.subscription, v.location, v.logicalZone);
      v.resolved := Resolved(mappings, v.subscription, v.location, v.logicalZone);
    }
    for k := 0 to |reservations|
      modifies reservations
      invariant forall r | r in reservations[..k] ::
                  && r.physicalZone == PhysicalZone(mappings, r.subscription, r.location, r.logicalZone)
                  && r.resolved == Resolved(mappings, r.subscription, r.location, r.logicalZone)
    {
      var r := reservations[k];
      r.physicalZone := PhysicalZone(mappings, r.subscription, r.location, r.logicalZone);
      r.resolved := Resolved(mappings, r.subscription, r.location, r.logicalZone);
    }
  }

  // ---- what the join should say ----

  ghost predicate Offers(r: Reservation, group: string, size: string) {
    r.group == group && r.size == size && group != "" && size != "" && r.id != ""
  }

  /** Same group and size; the same physical zone too, unless some zone involved is unknown. */
  ghost function Matching(rs: seq<Reservation>, group: string, size: string, zone: Option<string>,
      resolved: bool): set<string>
  {
    if resolved && forall r | r in rs && Offers(r, group, size) :: r.resolved
    then set r | r in rs && Offers(r, group, size) && r.zone == zone :: r.id
    else set r | r in rs && Offers(r, group, size) :: r.id
  }

  /** The last non-empty name a reservation row gives the group. */
  ghost function NameOf(rs: seq<Reservation>, group: string): Option<string> {
    if rs == [] || group == "" then None
    else
      var last := rs[|rs| - 1];
      if last.group == group && last.name != "" then Some(last.name) else NameOf(rs[..|rs| - 1], group)
  }

  /** An empty set is reported as None, anything else as the sorted list. */
  ghost predicate Lists(answer: Option<seq<string>>, ids: set<string>) {
    match answer
    case None => ids == {}
    case Some(xs) => ids != {} && Increasing(xs) && Elements(xs) == ids
  }

  // ---- the indexes ----

  datatype Index = Index(
    names: map<string, string>,
    broad: map<(string, string), set<string>>,
    strict: map<(string, string, Option<string>), set<string>>,
    unresolved: set<(string, string)>)

  function At<K>(m: map<K, set<string>>, key: K): set<string> {
    if key in m then m[key] else {}
  }

  ghost function Ids(rs: seq<Reservation>, g: string, s: string): set<string> {
    set r | r in rs && Offers(r, g, s) :: r.id
  }

  ghost function ZoneIds(rs: seq<Reservation>, g: string, s: string, z: Option<string>): set<string> {
    set r | r in rs && Offers(r, g, s) && r.resolved && r.zone == z :: r.id
  }

  ghost predicate SomeUnresolved(rs: seq<Reservation>, g: string, s: string) {
    exists r :: r in rs && Offers(r, g, s) && !r.resolved
  }

  lemma IdsGrow(rs: seq<Reservation>, r: Reservation, g: string, s: string)
    ensures Ids(rs + [r], g, s) == Ids(rs, g, s) + if Offers(r, g, s) then {r.id} else {}
    ensures SomeUnresolved(rs + [r], g, s) <==> SomeUnresolved(rs, g, s) || (Offers(r, g, s) && !r.resolved)
  {
    assert forall x :: x in rs + [r] <==> x in rs || x == r;
  }

  lemma ZoneIdsGrow(rs: seq<Reservation>, r: Reservation, g: string, s: string, z: Option<string>)
    ensures ZoneIds(rs + [r], g, s, z) == ZoneIds(rs, g, s, z) + if Offers(r, g, s) && r.resolved && r.zone == z
        then {r.id} else {}
  {
    assert forall x :: x in rs + [r] <==> x in rs || x == r;
  }

  ghost predicate Indexes(index: Index, rs: seq<Reservation>) {
    && (forall g :: NameOf(rs, g) == if g in index.names then Some(index.names[g]) else None)
    && (forall g, s :: At(index.broad, (g, s)) == Ids(rs, g, s))
    && (forall g, s, z :: At(index.strict, (g, s, z)) == ZoneIds(rs, g, s, z))
    && (forall g, s :: (g, s) in index.unresolved <==> SomeUnresolved(rs, g, s))
  }

  /** One reservation row entered into the indexes, branch by branch as the loop does. */
  function Enter(index: Index, r: Reservation): Index {
    if r.group == "" then index
    else
      var named := if r.name != "" then index.(names := index.names[r.group := r.name]) else index;
      if r.id == "" || r.size == "" then named
      else
        var key := (r.group, r.size);
        var offered := named.(broad := named.broad[key := At(named.broad, key) + {r.id}]);
        if !r.resolved then offered.(unresolved := offered.unresolved + {key})
        else
          var zoned := (r.group, r.size, r.zone);
          offered.(strict := offered.strict[zoned := At(offered.strict, zoned) + {r.id}])
  }

  lemma EnterKeepsNames(index: Index, rs: seq<Reservation>, r: Reservation, g: string)
    requires Indexes(index, rs)
    ensures NameOf(rs + [r], g) == if g in Enter(index, r).names then Some(Enter(index, r).names[g]) else None
  {
    assert (rs + [r])[..|rs|] == rs;
  }

  lemma EnterKeepsBroad(index: Index, rs: seq<Reservation>, r: Reservation, g: string, s: string)
    requires At(index.broad, (g, s)) == Ids(rs, g, s) && ((g, s) in index.unresolved <==> SomeUnresolved(rs, g, s))
    ensures At(Enter(index, r).broad, (g, s)) == Ids(rs + [r], g, s)
    ensures (g, s) in Enter(index, r).unresolved <==> SomeUnresolved(rs + [r], g, s)
  {
    IdsGrow(rs, r, g, s);
  }

  lemma EnterKeepsStrict(index: Index, rs: seq<Reservation>, r: Reservation, g: string, s: string, z: Option<string>)
    requires At(index.strict, (g, s, z)) == ZoneIds(rs, g, s, z)
    ensures At(Enter(index, r).strict, (g, s, z)) == ZoneIds(rs + [r], g, s, z)
  {
    ZoneIdsGrow(rs, r, g, s, z);
  }

  lemma EnterKeepsIndexes(index: Index, rs: seq<Reservation>, r: Reservation)
    requires Indexes(index, rs)
    ensures Indexes(Enter(index, r), rs + [r])
  {
    forall g { EnterKeepsNames(index, rs, r, g); }
    forall g, s { EnterKeepsBroad(index, rs, r, g, s); }
    forall g, s, z { EnterKeepsStrict(index, rs, r, g, s, z); }
  }

  function Values(reservations: seq<ReservationRow>): seq<Reservation>
    reads reservations
  {
    seq(|reservations|, i requires 0 <= i < |reservations| reads reservations => reservations[i].Value())
  }

  /** The lookup a VM makes: broad when its own zone or any under the key is unknown, strict otherwise. */
  function LookUp(index: Index, group: string, size: string, zone: Option<string>, resolved: bool): set<string> {
    if group == "" || size == "" then {}
    else if !resolved || (group, size) in index.unresolved then At(index.broad, (group, size))
    else At(index.strict, (group, size, zone))
  }

  lemma LookUpIsMatching(index: Index, rs: seq<Reservation>, group: string, size: string, zone: Option<string>,
      resolved: bool)
    requires Indexes(index, rs)
    ensures LookUp(index, group, size, zone, resolved) == Matching(rs, group, size, zone, resolved)
  {
    if group != "" && size != "" && resolved && (group, size) !in index.unresolved {
      assert forall r | r in rs && Offers(r, group, size) :: r.resolved;
    }
  }

  method BuildIndex(reservations: seq<ReservationRow>) returns (index: Index)
    ensures Indexes(index, Values(reservations))
  {
    ghost var rs := Values(reservations);
    index := Index(map[], map[], map[], {});
    assert rs[..0] == [] && rs[..|rs|] == rs;
    for k := 0 to |reservations|
      invariant Indexes(index, rs[..k])
    {
      EnterKeepsIndexes(index, rs[..k], rs[k]);
      assert rs[..k + 1] == rs[..k] + [rs[k]];
      index := Enter(index, reservations[k].Value());
    }
  }

  // ---- the same in terms of the rows ----

  /** Trimmed and in lower case, group and size agree and nothing needed is empty. */
  ghost predicate Fits(r: ReservationRow, groupId: string, size: string) {
    && Norm(r.groupId) == Norm(groupId) && Norm(groupId) != ""
    && Norm(r.size) == Norm(size) && Norm(size) != "" && Norm(r.reservationId) != ""
  }

  /** The fitting reservations; in the VM's physical zone only, if every zone involved is resolved. */
  ghost function Candidates(reservations: seq<ReservationRow>, groupId: string, size: string, zone: Option<string>,
      resolved: bool): set<string>
    reads reservations
  {
    var strict := resolved && forall r | r in reservations && Fits(r, groupId, size) :: r.resolved;
    set r | r in reservations && Fits(r, groupId, size) && (strict ==> r.physicalZone == zone) :: Norm(r.reservationId)
  }

  lemma RowsAreValues(reservations: seq<ReservationRow>)
    ensures forall x :: x in Values(reservations) <==> exists r :: r in reservations && x == r.Value()
  {
    var rs := Values(reservations);
    forall x ensures x in rs <==> exists r :: r in reservations && x == r.Value() {
      if x in rs { var i :| 0 <= i < |rs| && rs[i] == x; assert reservations[i] in reservations; }
      if r :| r in reservations && x == r.Value() {
        var i :| 0 <= i < |reservations| && reservations[i] == r;
        assert rs[i] == x;
      }
    }
  }

  lemma OffersAreFits(reservations: seq<ReservationRow>, groupId: string, size: string)
    ensures forall x :: x in Values(reservations) && Offers(x, Norm(groupId), Norm(size)) <==>
              exists r :: r in reservations && Fits(r, groupId, size) && x == r.Value()
  {
    RowsAreValues(reservations);
  }

  lemma CandidatesAreMatching(reservations: seq<ReservationRow>, groupId: string, size: string, zone: Option<string>,
      resolved: bool)
    ensures Candidates(reservations, groupId, size, zone, resolved) ==
            Matching(Values(reservations), Norm(groupId), Norm(size), zone, resolved)
  {
    var rs := Values(reservations);
    OffersAreFits(reservations, groupId, size);
    forall r | r in reservations && Fits(r, groupId, size)
      ensures r.Value() in rs && Offers(r.Value(), Norm(groupId), Norm(size))
    {
    }
    assert (forall r | r in reservations && Fits(r, groupId, size) :: r.resolved) <==>
           forall x | x in rs && Offers(x, Norm(groupId), Norm(size)) :: x.resolved;
  }

  /** The k-th value is the last that names its group. */
  ghost predicate LastNamed(rs: seq<Reservation>, group: string, k: int) {
    && 0 <= k < |rs| && rs[k].group == group && rs[k].name != ""
    && forall j | k < j < |rs| :: rs[j].group != group || rs[j].name == ""
  }

  lemma {:induction false} NameOfTheLast(rs: seq<Reservation>, group: string)
    requires group != ""
    ensures forall k | LastNamed(rs, group, k) :: NameOf(rs, group) == Some(rs[k].name)
    ensures (forall x | x in rs :: x.group != group || x.name == "") ==> NameOf(rs, group) == None
  {
    if rs != [] {
      var before := rs[..|rs| - 1];
      NameOfTheLast(before, group);
      forall k | LastNamed(rs, group, k) && k < |before| ensures LastNamed(before, group, k) {
        forall j | k < j < |before| ensures before[j].group != group || before[j].name == "" {
          assert before[j] == rs[j];
        }
      }
      assert rs[|rs| - 1] in rs && forall x | x in before :: x in rs;
    }
  }

  /** The name is the last non-empty one a row of the group gives, and there is none without such a row. */
  lemma NameIsTheLastGiven(reservations: seq<ReservationRow>, group: string, k: int)
    requires group != ""
    ensures 0 <= k < |reservations| && Norm(reservations[k].groupId) == group && reservations[k].groupName != ""
              && (forall j | k < j < |reservations| ::
                    Norm(reservations[j].groupId) != group || reservations[j].groupName == "") ==>
              NameOf(Values(reservations), group) == Some(reservations[k].groupName)
    ensures (forall r | r in reservations :: Norm(r.groupId) != group || r.groupName == "") ==>
              NameOf(Values(reservations), group) == None
  {
    var rs := Values(reservations);
    NameOfTheLast(rs, group);
    RowsAreValues(reservations);
    if 0 <= k < |reservations| && Norm(reservations[k].groupId) == group && reservations[k].groupName != ""
        && forall j | k < j < |reservations| ::
             Norm(reservations[j].groupId) != group || reservations[j].groupName == "" {
      assert forall j | 0 <= j < |rs| :: rs[j] == reservations[j].Value();
      assert LastNamed(rs, group, k);
    }
  }

  method Reconcile(vms: seq<VmRow>, reservations: seq<ReservationRow>)
    requires forall i, j | 0 <= i < j < |vms| :: vms[i] != vms[j]
    modifies vms
    ensures forall v | v in vms ::
              && Lists(v.candidates, Matching(Values(reservations), Norm(v.groupId), Norm(v.size), old(v.physicalZone),
                   old(v.resolved)))
              && v.groupName == NameOf(Values(reservations), Norm(v.groupId))
              && v.physicalZone == old(v.physicalZone) && !v.resolved
    ensures forall v | v in vms ::
              Lists(v.candidates, old(Candidates(reservations, v.groupId, v.size, v.physicalZone, v.resolved)))
  {
    forall v | v in vms
      ensures Candidates(reservations, v.groupId, v.size, v.physicalZone, v.resolved) ==
              Matching(Values(reservations), Norm(v.groupId), Norm(v.size), v.physicalZone, v.resolved)
    {
      CandidatesAreMatching(reservations, v.groupId, v.size, v.physicalZone, v.resolved);
    }
    var index := BuildIndex(reservations);
    LinkAll(vms, index, Values(reservations));
  }

  method LinkAll(vms: seq<VmRow>, index: Index, ghost rs: seq<Reservation>)
    requires forall i, j | 0 <= i < j < |vms| :: vms[i] != vms[j]
    requires Indexes(index, rs)
    modifies vms
    ensures forall v | v in vms ::
              && Lists(v.candidates, Matching(rs, Norm(v.groupId), Norm(v.size), old(v.physicalZone), old(v.resolved)))
              && v.groupName == NameOf(rs, Norm(v.groupId))
              && v.physicalZone == old(v.physicalZone) && !v.resolved
  {
    for k := 0 to |vms|
      invariant forall v | v in vms[..k] ::
                  && Lists(v.candidates, Matching(rs, Norm(v.groupId), Norm(v.size), old(v.physicalZone),
                       old(v.resolved)))
                  && v.groupName == NameOf(rs, Norm(v.groupId)) && !v.resolved
      invariant forall v | v in vms :: v.physicalZone == old(v.physicalZone)
      invariant forall v | v in vms[k..] :: v.resolved == old(v.resolved)
    {
      var v := vms[k];
      assert v in vms[k..] && v !in vms[..k] && v !in vms[k + 1..];
      Link(v, index, rs);
    }
  }

  method Link(v: VmRow, index: Index, ghost rs: seq<Reservation>)
    requires Indexes(index, rs)
    modifies v
    ensures Lists(v.candidates, Matching(rs, Norm(v.groupId), Norm(v.size), old(v.physicalZone), old(v.resolved)))
    ensures v.groupName == NameOf(rs, Norm(v.groupId)) && v.physicalZone == old(v.physicalZone) && !v.resolved
  {
    var group, size := Norm(v.groupId), Norm(v.size);
    v.groupName := if group != "" && group in index.names then Some(index.names[group]) else None;
    var found := LookUp(index, group, size, v.physicalZone, v.resolved);
    LookUpIsMatching(index, rs, group, size, v.physicalZone, v.resolved);
    if found == {} {
      v.candidates := None;
    } else {
      var sorted := Sorted(found);
      v.candidates := Some(sorted);
    }
    v.resolved := false;
  }
}
