/** The life of an organisation: create, rename, delete, its one Admin, assigned people and departments.

    Name checks take one advisory lock; whatever adds to an organisation, and its deletion, takes the
    organisation's row lock. Every statement of a transaction is a step, its writes and the release
    of its locks happen together at the commit, and the holders of a lock are the transactions whose
    stage says so. `key` is the form in which two names are compared. */
module Organisations {
  import opened Options

  type Id = nat
  type TxId = nat
  type NameKey = string -> string

  datatype Company = Company(name: string, deleted: bool)
  datatype Person = Person(org: Option<Id>, admin: bool, active: bool, deleted: bool, email: string)
  datatype Department = Department(org: Id, deleted: bool)

  /** Committed rows; `next` is the next id never used. Rows are only ever marked deleted. */
  datatype World = World(next: Id, companies: map<Id, Company>, people: map<Id, Person>, departments: map<Id,
                         Department>)

  datatype Op =
    | Create(name: string)
    | Rename(id: Id, name: string)
    | Delete(org: Id)
    | CreateAdmin(org: Id, email: string)
    | Hire(org: Id, email: string)
    | Assign(person: Id, org: Id)
    | CreateDepartment(org: Id)
  {
    predicate Names() { Create? || Rename? }
  }

  datatype Reason = NameTaken | NotFound | NotEmpty | AdminExists | EmailInUse | PersonNotFound | PersonInOrganisation

  datatype Stage =
    | Screening
    | Waiting
    | Holding
    | Cleared
    | Marked(people: set<Id>)
    | Swept(people: set<Id>, departments: set<Id>)
    | Refused(reason: Reason)
    | Done
    | Aborted
  {
    predicate Holds() { Holding? || Cleared? || Marked? || Swept? }
    predicate Begins() { Screening? || Waiting? }
    predicate Ended() { Refused? || Done? || Aborted? }

    function Rank(): nat {
      match this
      case Screening => 6
      case Waiting => 5
      case Holding => 4
      case Cleared => 3
      case Marked(_) => 2
      case Swept(_, _) => 1
      case _ => 0
    }
  }

  datatype Tx = Tx(op: Op, stage: Stage)
  datatype State = State(world: World, txs: map<TxId, Tx>)
  datatype Event = Go(id: TxId) | Abort(victim: TxId) | SetActive(person: Id, active: bool) | Remove(person: Id)

  predicate Live(w: World, org: Id) { org in w.companies && !w.companies[org].deleted }

  predicate Taken(w: World, key: NameKey, name: string, except: Option<Id>) {
    exists c | c in w.companies :: !w.companies[c].deleted && Some(c) != except && key(w.companies[c].name) == key(name)
  }

  predicate AdminOf(p: Person, org: Id) { p.org == Some(org) && p.admin && !p.deleted }
  predicate Belongs(p: Person, org: Id) { p.org == Some(org) && !p.deleted }

  predicate HasAdmin(w: World, org: Id, except: Option<Id>) {
    exists p | p in w.people :: Some(p) != except && AdminOf(w.people[p], org)
  }

  predicate EmailUsed(w: World, email: string) { exists p | p in w.people :: w.people[p].email == email }

  /** The person's organisation, when it has not been deleted. */
  function Current(w: World, p: Person): Option<Id> { if p.org.Some? && Live(w, p.org.value) then p.org else None }

  function AddCompany(w: World, c: Company): World { w.(next := w.next + 1, companies := w.companies[w.next := c]) }
  function AddPerson(w: World, p: Person): World { w.(next := w.next + 1, people := w.people[w.next := p]) }
  function AddDepartment(w: World, d: Department): World {
    w.(next := w.next + 1, departments := w.departments[w.next := d])
  }

  /** What the commit of a delete writes. */
  function Sweep(w: World, org: Id, people: set<Id>, departments: set<Id>): World
    requires org in w.companies
  {
    w.(companies := w.companies[org := w.companies[org].(deleted := true)],
       people := map p | p in w.people :: if p in people then w.people[p].(deleted := true) else w.people[p],
       departments := map d | d in w.departments ::
         if d in departments then w.departments[d].(deleted := true) else w.departments[d])
  }

  /** One statement of a transaction; the first one is granted its lock. */
  function Act(w: World, key: NameKey, op: Op, stage: Stage): (Stage, World) {
    match (stage, op)
    case (Screening, CreateAdmin(_, email)) => (if EmailUsed(w, email) then Refused(EmailInUse) else Waiting, w)
    case (Screening, _) => (Waiting, w)
    case (Waiting, Create(_)) => (Holding, w)
    case (Waiting, Rename(_, _)) => (Holding, w)
    case (Waiting, _) => (if Live(w, op.org) then Holding else Refused(NotFound), w)
    case (Holding, Create(name)) => (if Taken(w, key, name, None) then Refused(NameTaken) else Cleared, w)
    case (Holding, Rename(id, name)) =>
      (if !Live(w, id) then Refused(NotFound) else if Taken(w, key, name, Some(id)) then Refused(NameTaken)
        else Cleared, w)
    case (Holding, Delete(org)) =>
      (if exists p | p in w.people :: Belongs(w.people[p], org)
        && w.people[p].active then Refused(NotEmpty) else Cleared, w)
    case (Holding, CreateAdmin(org, _)) => (if HasAdmin(w, org, None) then Refused(AdminExists) else Cleared, w)
    case (Holding, Hire(org, email)) =>
      if EmailUsed(w, email) then (Refused(EmailInUse), w)
        else (Done, AddPerson(w, Person(Some(org), false, true, false, email)))
    case (Holding, Assign(person, org)) =>
      if person !in w.people || w.people[person].deleted then (Refused(PersonNotFound), w)
      else if Current(w, w.people[person]) == Some(org) then (Done, w)
      else if Current(w, w.people[person]).Some? then (Refused(PersonInOrganisation), w)
      else (if w.people[person].admin && HasAdmin(w, org, Some(person)) then Refused(AdminExists) else Cleared, w)
    case (Holding, CreateDepartment(org)) => (Done, AddDepartment(w, Department(org, false)))
    case (Cleared, Create(name)) => (Done, AddCompany(w, Company(name, false)))
    case (Cleared, Rename(id, name)) =>
      if id in w.companies then (Done, w.(companies := w.companies[id := w.companies[id].(name := name)]))
        else (Aborted, w)
    case (Cleared, Delete(org)) => (Marked(set p | p in w.people && Belongs(w.people[p], org)), w)
    case (Cleared, CreateAdmin(org, email)) =>
      if EmailUsed(w, email) then (Refused(EmailInUse), w)
        else (Done, AddPerson(w, Person(Some(org), true, true, false, email)))
    case (Cleared, Assign(person, org)) =>
      if person in w.people then (Done, w.(people := w.people[person := w.people[person].(org := Some(org))]))
        else (Aborted, w)
    case (Marked(people), Delete(org)) =>
      (Swept(people, set d | d in w.departments && w.departments[d].org == org && !w.departments[d].deleted), w)
    case (Swept(people, departments), Delete(org)) =>
      if org in w.companies then (Done, Sweep(w, org, people, departments)) else (Aborted, w)
    case _ => (if stage.Holds() then Aborted else stage, w)
  }

  /** The same lock, held twice. */
  predicate Clash(x: Tx, y: Tx) {
    && x.stage.Holds() && y.stage.Holds()
    && (if x.op.Names() || y.op.Names() then x.op.Names() && y.op.Names() else x.op.org == y.op.org)
  }

  predicate Blocked(s: State, id: TxId)
    requires id in s.txs
  {
    s.txs[id].stage.Waiting? && exists k | k in s.txs :: k != id && Clash(s.txs[k], s.txs[id].(stage := Holding))
  }

  function Step(s: State, key: NameKey, ev: Event): State {
    var w := s.world;
    match ev
    case Go(id) =>
      if id !in s.txs || Blocked(s, id) then s
      else
        var (stage, after) := Act(w, key, s.txs[id].op, s.txs[id].stage);
        State(after, s.txs[id := s.txs[id].(stage := stage)])
    case Abort(id) =>
      if id in s.txs && !s.txs[id].stage.Ended() then s.(txs := s.txs[id := s.txs[id].(stage := Aborted)]) else s
    case SetActive(p, active) =>
      if p in w.people then s.(world := w.(people := w.people[p := w.people[p].(active := active)])) else s
    case Remove(p) =>
      if p in w.people then s.(world := w.(people := w.people[p := w.people[p].(deleted := true)])) else s
  }

  function Run(s: State, key: NameKey, events: seq<Event>): State
    decreases events
  {
    if events == [] then s else Run(Step(s, key, events[0]), key, events[1..])
  }

  // ---- the promises ----

  ghost predicate NamesDistinct(w: World, key: NameKey) {
    forall a, b | a in w.companies && b in w.companies && !w.companies[a].deleted && !w.companies[b].deleted
      && key(w.companies[a].name) == key(w.companies[b].name) :: a == b
  }

  /** Both are Admins of one organisation. */
  predicate Rivals(x: Person, y: Person) { x.org.Some? && AdminOf(x, x.org.value) && AdminOf(y, x.org.value) }

  predicate Housed(w: World, p: Person) { p.org.Some? && !p.deleted ==> Live(w, p.org.value) }

  ghost predicate OneAdmin(w: World) {
    forall a, b | a in w.people && b in w.people && Rivals(w.people[a], w.people[b]) :: a == b
  }

  /** A deleted organisation holds nobody and nothing; nobody belongs to one that does not exist. */
  ghost predicate DeletedEmpty(w: World) {
    && (forall p | p in w.people :: Housed(w, w.people[p]))
    && (forall d | d in w.departments && !w.departments[d].deleted :: Live(w, w.departments[d].org))
  }

  ghost predicate EmailsDistinct(w: World) {
    forall a, b | a in w.people && b in w.people && w.people[a].email == w.people[b].email :: a == b
  }

  ghost predicate IdsUsed(w: World) {
    && (forall i | i in w.companies :: i < w.next)
    && (forall i | i in w.people :: i < w.next)
    && (forall i | i in w.departments :: i < w.next)
  }

  ghost predicate Sound(w: World, key: NameKey) {
    && IdsUsed(w) && NamesDistinct(w, key) && OneAdmin(w) && DeletedEmpty(w) && EmailsDistinct(w)
  }

  /** What a transaction has found out under its lock still holds. */
  ghost predicate StillTrue(w: World, key: NameKey, op: Op, stage: Stage) {
    && (!op.Names() && stage.Holds() ==> Live(w, op.org))
    && (stage.Cleared? ==>
        match op
        case Create(name) => !Taken(w, key, name, None)
        case Rename(id, name) => !Taken(w, key, name, Some(id))
        case CreateAdmin(org, _) => !HasAdmin(w, org, None)
        case Assign(person, org) => person in w.people && (w.people[person].admin ==> !HasAdmin(w, org, Some(person)))
        case _ => true)
    && (op.Delete? && (stage.Marked? || stage.Swept?) ==>
        forall p | p in w.people && Belongs(w.people[p], op.org) :: p in stage.people)
    && (op.Delete? && stage.Swept? ==>
        forall d | d in w.departments && w.departments[d].org == op.org && !w.departments[d].deleted ::
          d in stage.departments)
  }

  lemma SweepSound(w: World, key: NameKey, org: Id, people: set<Id>, departments: set<Id>)
    requires Sound(w, key) && StillTrue(w, key, Delete(org), Swept(people, departments))
    ensures Sound(Sweep(w, org, people, departments), key)
  {
    var after := Sweep(w, org, people, departments);
    forall p | p in after.people
      ensures Housed(after, after.people[p])
    {
      assert Housed(w, w.people[p]);
      assert Belongs(w.people[p], org) ==> p in people;
    }
    forall a, b | a in after.people && b in after.people && Rivals(after.people[a], after.people[b])
      ensures a == b
    {
      assert Rivals(w.people[a], w.people[b]);
    }
  }

  lemma NamedSound(w: World, key: NameKey, id: Id, c: Company, next: Id)
    requires Sound(w, key) && !c.deleted && !Taken(w, key, c.name, Some(id))
    requires (id in w.companies && !w.companies[id].deleted) || id == w.next
    requires w.next <= next && id < next
    ensures Sound(w.(next := next, companies := w.companies[id := c]), key)
  {
    var after := w.(next := next, companies := w.companies[id := c]);
    forall p | p in after.people
      ensures Housed(after, after.people[p])
    {
      assert Housed(w, w.people[p]);
    }
  }

  lemma PlacedSound(w: World, key: NameKey, id: Id, p: Person, next: Id)
    requires Sound(w, key) && Housed(w, p) && (id in w.people || id == w.next)
    requires forall k | k in w.people && k != id :: w.people[k].email != p.email
    requires p.org.Some? && p.admin && !p.deleted ==> !HasAdmin(w, p.org.value, Some(id))
    requires w.next <= next && id < next
    ensures Sound(w.(next := next, people := w.people[id := p]), key)
  {
    var after := w.(next := next, people := w.people[id := p]);
    forall k | k in after.people
      ensures Housed(after, after.people[k])
    {
      assert k != id ==> Housed(w, w.people[k]);
    }
    forall k | k in w.people && k != id
      ensures !Rivals(p, w.people[k]) && !Rivals(w.people[k], p)
    {
    }
  }

  lemma AddedDepartmentSound(w: World, key: NameKey, org: Id)
    requires Sound(w, key) && Live(w, org)
    ensures Sound(AddDepartment(w, Department(org, false)), key)
  {
    var after := AddDepartment(w, Department(org, false));
    forall p | p in after.people
      ensures Housed(after, after.people[p])
    {
      assert Housed(w, w.people[p]);
    }
  }

  lemma OthersMail(w: World, key: NameKey, person: Id)
    requires Sound(w, key) && person in w.people
    ensures forall k | k in w.people && k != person :: w.people[k].email != w.people[person].email
    ensures person < w.next
  {
  }

  /** The commit of each operation keeps every promise. */
  lemma ActSound(w: World, key: NameKey, op: Op, stage: Stage)
    requires Sound(w, key) && StillTrue(w, key, op, stage)
    ensures Sound(Act(w, key, op, stage).1, key)
  {
    hide Sound;
    match (stage, op)
    case (Cleared, Create(name)) => NamedSound(w, key, w.next, Company(name, false), w.next + 1);
    case (Cleared, Rename(id, name)) =>
      if id in w.companies && !w.companies[id].deleted {
        IdBelowNext(w, key, id);
        NamedSound(w, key, id, w.companies[id].(name := name), w.next);
      } else if id in w.companies {
        RenamedDeletedSound(w, key, id, name);
      }
    case (Cleared, CreateAdmin(org, email)) =>
      if !EmailUsed(w, email) {
        PlacedSound(w, key, w.next, Person(Some(org), true, true, false, email), w.next + 1);
      }
    case (Holding, Hire(org, email)) =>
      if !EmailUsed(w, email) {
        PlacedSound(w, key, w.next, Person(Some(org), false, true, false, email), w.next + 1);
      }
    case (Cleared, Assign(person, org)) =>
      OthersMail(w, key, person);
      PlacedSound(w, key, person, w.people[person].(org := Some(org)), w.next);
    case (Holding, CreateDepartment(org)) => AddedDepartmentSound(w, key, org);
    case (Swept(people, departments), Delete(org)) => SweepSound(w, key, org, people, departments);
    case _ =>
  }

  lemma IdBelowNext(w: World, key: NameKey, id: Id)
    requires Sound(w, key) && id in w.companies
    ensures id < w.next
  {
  }

  /** A rename that lost to a delete writes the name of a deleted organisation: nobody sees it. */
  lemma RenamedDeletedSound(w: World, key: NameKey, id: Id, name: string)
    requires Sound(w, key) && id in w.companies && w.companies[id].deleted
    ensures Sound(w.(companies := w.companies[id := w.companies[id].(name := name)]), key)
  {
    var after := w.(companies := w.companies[id := w.companies[id].(name := name)]);
    forall p | p in after.people
      ensures Housed(after, after.people[p])
    {
      assert Housed(w, w.people[p]);
    }
  }

  lemma ActKnows(w: World, key: NameKey, op: Op, stage: Stage)
    requires Sound(w, key) && StillTrue(w, key, op, stage)
    ensures StillTrue(Act(w, key, op, stage).1, key, op, Act(w, key, op, stage).0)
  {
  }

  /** What one transaction knows survives what another does under different locks. */
  lemma OthersKeep(w: World, key: NameKey, tx: Tx, other: Tx)
    requires Sound(w, key) && StillTrue(w, key, tx.op, tx.stage) && StillTrue(w, key, other.op, other.stage)
    requires !Clash(tx, other)
    ensures StillTrue(Act(w, key, tx.op, tx.stage).1, key, other.op, other.stage)
  {
    hide NamesDistinct;
    hide OneAdmin;
    hide DeletedEmpty;
    hide EmailsDistinct;
  }

  // ---- every run ----

  predicate Conflict(s: State, a: TxId, b: TxId)
    requires a in s.txs && b in s.txs
  {
    a != b && Clash(s.txs[a], s.txs[b])
  }

  ghost predicate Guarded(s: State, key: NameKey) {
    && Sound(s.world, key)
    && (forall a, b | a in s.txs && b in s.txs :: !Conflict(s, a, b))
    && (forall k | k in s.txs :: StillTrue(s.world, key, s.txs[k].op, s.txs[k].stage))
  }

  lemma GuardedGo(s: State, key: NameKey, id: TxId)
    requires Guarded(s, key) && id in s.txs && !Blocked(s, id)
    ensures Guarded(Step(s, key, Go(id)), key)
  {
    var t, tx := Step(s, key, Go(id)), s.txs[id];
    ActSound(s.world, key, tx.op, tx.stage);
    ActKnows(s.world, key, tx.op, tx.stage);
    HoldsOnlyWhatItGot(s.world, key, tx.op, tx.stage);
    forall k | k in t.txs
      ensures StillTrue(t.world, key, t.txs[k].op, t.txs[k].stage)
    {
      if k != id {
        assert !Conflict(s, id, k);
        OthersKeep(s.world, key, tx, s.txs[k]);
      }
    }
    forall a, b | a in t.txs && b in t.txs
      ensures !Conflict(t, a, b)
    {
      assert !Conflict(s, a, b);
    }
  }

  lemma HoldsOnlyWhatItGot(w: World, key: NameKey, op: Op, stage: Stage)
    ensures Act(w, key, op, stage).0.Holds() ==> stage.Holds() || (stage.Waiting? && Act(w, key, op, stage).0.Holding?)
  {
  }

  /** Activating, deactivating and removing people change no promise and nothing a transaction relies on. */
  lemma PersonEdited(w: World, key: NameKey, id: Id, p: Person)
    requires Sound(w, key) && id in w.people
    requires p == w.people[id].(active := p.active) || p == w.people[id].(deleted := true)
    ensures Sound(w.(people := w.people[id := p]), key)
  {
    var after := w.(people := w.people[id := p]);
    forall k | k in after.people
      ensures Housed(after, after.people[k])
    {
      assert Housed(w, w.people[k]);
    }
    forall a, b | a in after.people && b in after.people && Rivals(after.people[a], after.people[b])
      ensures a == b
    {
      assert Rivals(w.people[a], w.people[b]);
    }
  }

  lemma PersonEditedKnows(w: World, key: NameKey, id: Id, p: Person, op: Op, stage: Stage)
    requires id in w.people && StillTrue(w, key, op, stage)
    requires p == w.people[id].(active := p.active) || p == w.people[id].(deleted := true)
    ensures StillTrue(w.(people := w.people[id := p]), key, op, stage)
  {
  }

  lemma GuardedEdit(s: State, key: NameKey, id: Id, p: Person)
    requires Guarded(s, key) && id in s.world.people
    requires p == s.world.people[id].(active := p.active) || p == s.world.people[id].(deleted := true)
    ensures Guarded(s.(world := s.world.(people := s.world.people[id := p])), key)
  {
    var t := s.(world := s.world.(people := s.world.people[id := p]));
    PersonEdited(s.world, key, id, p);
    forall k | k in t.txs
      ensures StillTrue(t.world, key, t.txs[k].op, t.txs[k].stage)
    {
      PersonEditedKnows(s.world, key, id, p, s.txs[k].op, s.txs[k].stage);
    }
    forall a, b | a in t.txs && b in t.txs
      ensures !Conflict(t, a, b)
    {
      assert !Conflict(s, a, b);
    }
  }

  lemma GuardedStep(s: State, key: NameKey, ev: Event)
    requires Guarded(s, key)
    ensures Guarded(Step(s, key, ev), key)
  {
    var w, t := s.world, Step(s, key, ev);
    match ev
    case Go(id) =>
      if id in s.txs && !Blocked(s, id) {
        GuardedGo(s, key, id);
      }
    case Abort(id) =>
      forall a, b | a in t.txs && b in t.txs
        ensures !Conflict(t, a, b)
      {
        assert !Conflict(s, a, b);
      }
    case SetActive(p, active) =>
      if p in w.people {
        GuardedEdit(s, key, p, w.people[p].(active := active));
      }
    case Remove(p) =>
      if p in w.people {
        GuardedEdit(s, key, p, w.people[p].(deleted := true));
      }
  }

  lemma {:induction false} GuardedRun(s: State, key: NameKey, events: seq<Event>)
    requires Guarded(s, key)
    ensures Guarded(Run(s, key, events), key)
    decreases events
  {
    if events != [] {
      GuardedStep(s, key, events[0]);
      GuardedRun(Step(s, key, events[0]), key, events[1..]);
    }
  }

  /** Any sound table and transactions that have not begun. */
  ghost predicate Initial(s: State, key: NameKey) {
    Sound(s.world, key) && forall k | k in s.txs :: s.txs[k].stage.Begins()
  }

  /** In every interleaving: the names of live organisations stay distinct under the name key, no
      organisation has two Admins who are not deleted, and a deleted one holds no person and no
      department that is not. */
  lemma OrganisationsStaySound(s: State, key: NameKey, events: seq<Event>)
    requires Initial(s, key)
    ensures NamesDistinct(Run(s, key, events).world, key)
    ensures OneAdmin(Run(s, key, events).world)
    ensures DeletedEmpty(Run(s, key, events).world)
    ensures EmailsDistinct(Run(s, key, events).world)
    ensures var w := Run(s, key, events).world;
            forall i | i in w.companies || i in w.people || i in w.departments :: i < w.next
  {
    GuardedRun(s, key, events);
  }

  /** In every run: of the transactions past their lock and before their commit, no two create or rename, and no two are
      about one organisation. */
  lemma NobodyBesideAHolder(s: State, key: NameKey, events: seq<Event>, a: TxId, b: TxId)
    requires Initial(s, key) && a in Run(s, key, events).txs && b in Run(s, key, events).txs && a != b
    ensures var x, y := Run(s, key, events).txs[a], Run(s, key, events).txs[b];
            (x.stage.Holding? || x.stage.Cleared? || x.stage.Marked? || x.stage.Swept?) &&
            (y.stage.Holding? || y.stage.Cleared? || y.stage.Marked? || y.stage.Swept?) ==>
              && !((x.op.Create? || x.op.Rename?) && (y.op.Create? || y.op.Rename?))
              && (!(x.op.Create? || x.op.Rename?) && !(y.op.Create? || y.op.Rename?) ==> x.op.org != y.op.org)
  {
    GuardedRun(s, key, events);
    assert !Conflict(Run(s, key, events), a, b);
  }

  /** A transaction waits only while another holds the very lock it asks for. */
  lemma WaitsOnlyForItsLock(s: State, id: TxId)
    requires id in s.txs
    ensures var x := s.txs[id];
            Blocked(s, id) <==>
            && x.stage.Waiting?
            && exists k | k in s.txs && k != id ::
                 var y := s.txs[k];
                 && (y.stage.Holding? || y.stage.Cleared? || y.stage.Marked? || y.stage.Swept?)
                 && (if x.op.Create? || x.op.Rename? then y.op.Create? || y.op.Rename?
                     else !(y.op.Create? || y.op.Rename?) && y.op.org == x.op.org)
  {
  }

  lemma {:induction false} DeletedStays(s: State, key: NameKey, events: seq<Event>, org: Id)
    requires Guarded(s, key)
    requires org in s.world.companies && s.world.companies[org].deleted
    ensures org in Run(s, key, events).world.companies && Run(s, key, events).world.companies[org].deleted
    decreases events
  {
    if events != [] {
      var t := Step(s, key, events[0]);
      if events[0].Go? && events[0].id in s.txs {
        assert StillTrue(s.world, key, s.txs[events[0].id].op, s.txs[events[0].id].stage);
        CompaniesStay(s.world, key, s.txs[events[0].id].op, s.txs[events[0].id].stage, org);
      }
      GuardedStep(s, key, events[0]);
      DeletedStays(t, key, events[1..], org);
    }
  }

  lemma CompaniesStay(w: World, key: NameKey, op: Op, stage: Stage, org: Id)
    requires org in w.companies && w.companies[org].deleted && org < w.next
    ensures org in Act(w, key, op, stage).1.companies && Act(w, key, op, stage).1.companies[org].deleted
  {
  }

  /** Deletion is for good: once an organisation is deleted, it stays deleted and no person and no
      department that is not deleted is ever in it again, whatever was in flight. */
  lemma DeletedForGood(s: State, key: NameKey, before: seq<Event>, after: seq<Event>, org: Id)
    requires Initial(s, key)
    requires var m := Run(s, key, before); org in m.world.companies && m.world.companies[org].deleted
    ensures var t := Run(Run(s, key, before), key, after).world;
            && !Live(t, org)
            && (forall p | p in t.people :: !Belongs(t.people[p], org))
            && (forall d | d in t.departments && t.departments[d].org == org :: t.departments[d].deleted)
  {
    GuardedRun(s, key, before);
    DeletedStays(Run(s, key, before), key, after, org);
    GuardedRun(Run(s, key, before), key, after);
    var t := Run(Run(s, key, before), key, after).world;
    forall p | p in t.people
      ensures !Belongs(t.people[p], org)
    {
      assert Housed(t, t.people[p]);
    }
  }

  // ---- the store's methods, as whole transactions ----

  function Alone(w: World, key: NameKey, op: Op, stage: Stage): (Stage, World)
    decreases stage.Rank()
  {
    if stage.Rank() == 0 then (stage, w) else
      var (next, after) := Act(w, key, op, stage);
      Alone(after, key, op, next)
  }

  lemma AloneFrom(w: World, key: NameKey, op: Op, stage: Stage)
    requires stage.Rank() > 0
    ensures Alone(w, key, op, stage) == Alone(Act(w, key, op, stage).1, key, op, Act(w, key, op, stage).0)
  {
  }

  lemma AloneEnded(w: World, key: NameKey, op: Op, stage: Stage)
    requires stage.Rank() == 0
    ensures Alone(w, key, op, stage) == (stage, w)
  {
  }

  /** Hiring: refused exactly when the organisation is not live or the e-mail is anybody's; otherwise one new active
      person of it who is no Admin, and nothing else. */
  lemma HireAnswers(w: World, key: NameKey, org: Id, email: string)
    ensures Alone(w, key, Hire(org, email), Waiting) ==
            if org !in w.companies || w.companies[org].deleted then (Refused(NotFound), w)
            else if exists p | p in w.people :: w.people[p].email == email then (Refused(EmailInUse), w)
            else (Done, w.(next := w.next + 1,
                           people := w.people[w.next := Person(Some(org), false, true, false, email)]))
  {
    hide Alone;
    AloneFrom(w, key, Hire(org, email), Waiting);
    if Live(w, org) {
      AloneFrom(w, key, Hire(org, email), Holding);
      var (next, after) := Act(w, key, Hire(org, email), Holding);
      AloneEnded(after, key, Hire(org, email), next);
    } else {
      AloneEnded(w, key, Hire(org, email), Refused(NotFound));
    }
  }

  /** A new department: refused exactly when the organisation is not live; otherwise one new row of it. */
  lemma CreateDepartmentAnswers(w: World, key: NameKey, org: Id)
    ensures Alone(w, key, CreateDepartment(org), Waiting) ==
            if org !in w.companies || w.companies[org].deleted then (Refused(NotFound), w)
            else (Done, w.(next := w.next + 1, departments := w.departments[w.next := Department(org, false)]))
  {
    hide Alone;
    AloneFrom(w, key, CreateDepartment(org), Waiting);
    if Live(w, org) {
      AloneFrom(w, key, CreateDepartment(org), Holding);
      AloneEnded(AddDepartment(w, Department(org, false)), key, CreateDepartment(org), Done);
    } else {
      AloneEnded(w, key, CreateDepartment(org), Refused(NotFound));
    }
  }

  /** A delete that goes on sweeps what it found when it had found nobody active. */
  lemma DeleteAlone(w: World, key: NameKey, org: Id)
    ensures Alone(w, key, Delete(org), Waiting) ==
            if !Live(w, org) then (Refused(NotFound), w)
            else if exists p | p in w.people :: Belongs(w.people[p], org) && w.people[p].active
            then (Refused(NotEmpty), w)
            else (Done, Sweep(w, org, set p | p in w.people && Belongs(w.people[p], org),
                              set d | d in w.departments && w.departments[d].org == org && !w.departments[d].deleted))
  {
    hide Alone;
    hide Sweep;
    AloneFrom(w, key, Delete(org), Waiting);
    if !Live(w, org) {
      AloneEnded(w, key, Delete(org), Refused(NotFound));
    } else {
      AloneFrom(w, key, Delete(org), Holding);
      if exists p | p in w.people :: Belongs(w.people[p], org) && w.people[p].active {
        AloneEnded(w, key, Delete(org), Refused(NotEmpty));
      } else {
        var people := set p | p in w.people && Belongs(w.people[p], org);
        var units := set d | d in w.departments && w.departments[d].org == org && !w.departments[d].deleted;
        AloneFrom(w, key, Delete(org), Cleared);
        AloneFrom(w, key, Delete(org), Marked(people));
        AloneFrom(w, key, Delete(org), Swept(people, units));
        AloneEnded(Sweep(w, org, people, units), key, Delete(org), Done);
      }
    }
  }

  /** Activating, deactivating and removing write that one field of that one person. */
  lemma EditsOnePerson(s: State, key: NameKey, person: Id, active: bool)
    ensures var w, t := s.world, Step(s, key, SetActive(person, active)).world;
            && t == w.(people := t.people) && t.people.Keys == w.people.Keys
            && forall p | p in w.people ::
                 t.people[p] == if p == person then w.people[p].(active := active) else w.people[p]
    ensures var w, t := s.world, Step(s, key, Remove(person)).world;
            && t == w.(people := t.people) && t.people.Keys == w.people.Keys
            && forall p | p in w.people ::
                 t.people[p] == if p == person then w.people[p].(deleted := true) else w.people[p]
  {
  }

  /** What has ended stays as it ended, and a transaction given up writes nothing. */
  lemma EndedStays(s: State, key: NameKey, ev: Event, id: TxId)
    requires id in s.txs
    ensures s.txs[id].stage.Ended() ==> id in Step(s, key, ev).txs && Step(s, key, ev).txs[id] == s.txs[id]
    ensures Step(s, key, Abort(id)).world == s.world
    ensures !s.txs[id].stage.Ended() ==> Step(s, key, Abort(id)).txs == s.txs[id := Tx(s.txs[id].op, Aborted)]
  {
    if s.txs[id].stage.Ended() {
      assert Act(s.world, key, s.txs[id].op, s.txs[id].stage) == (s.txs[id].stage, s.world);
    }
  }

  /** In every interleaving: the step that clears a delete to go on finds nobody active in the organisation, and the
      step that refuses it as not empty finds somebody. */
  lemma ClearedDeleteFoundNobody(s: State, key: NameKey, events: seq<Event>, id: TxId, org: Id)
    requires id in Run(s, key, events).txs && Run(s, key, events).txs[id] == Tx(Delete(org), Holding)
    ensures var t := Run(s, key, events);
            var next := Step(t, key, Go(id)).txs[id].stage;
            var active := exists p | p in t.world.people ::
              t.world.people[p].org == Some(org) && !t.world.people[p].deleted && t.world.people[p].active;
            && id in Step(t, key, Go(id)).txs
            && next == (if active then Refused(NotEmpty) else Cleared)
  {
  }

  class OrganisationStore {
    const key: NameKey
    var next: Id
    var companies: map<Id, Company>
    var people: map<Id, Person>
    var departments: map<Id, Department>

    constructor (key: NameKey)
      ensures this.key == key && companies == map[] && people == map[] && departments == map[]
    {
      this.key := key;
      next, companies, people, departments := 0, map[], map[], map[];
    }

    function View(): World
      reads this
    {
      World(next, companies, people, departments)
    }

    /** The source's `nameTaken` over the live organisations. */
    method NameIsTaken(name: string, except: Option<Id>) returns (taken: bool)
      ensures taken == Taken(View(), key, name, except)
    {
      taken := false;
      var left := companies.Keys;
      while left != {} && !taken
        invariant left <= companies.Keys
        invariant taken ==> Taken(View(), key, name, except)
        invariant !taken ==> forall c | c in companies && c !in left ::
                    companies[c].deleted || Some(c) == except || key(companies[c].name) != key(name)
        decreases |left|
      {
        var c :| c in left;
        left := left - {c};
        taken := !companies[c].deleted && Some(c) != except && key(companies[c].name) == key(name);
      }
    }

    /** Refused exactly when a live organisation has the name; otherwise one new row and nothing else. */
    method CreateOrganisation(name: string) returns (outcome: Stage)
      modifies this
      ensures (outcome, View()) == Alone(old(View()), key, Create(name), Waiting)
      ensures outcome == (if exists c | c in old(companies) ::
                                !old(companies)[c].deleted && key(old(companies)[c].name) == key(name)
                          then Refused(NameTaken) else Done)
      ensures people == old(people) && departments == old(departments)
      ensures outcome != Done ==> companies == old(companies) && next == old(next)
      ensures outcome == Done ==>
                companies == old(companies)[old(next) := Company(name, false)] && next == old(next) + 1
    {
      AloneFrom(View(), key, Create(name), Waiting);
      AloneFrom(View(), key, Create(name), Holding);
      AloneFrom(View(), key, Create(name), Cleared);
      var taken := NameIsTaken(name, None);
      if taken {
        return Refused(NameTaken);
      }
      companies, next := companies[next := Company(name, false)], next + 1;
      outcome := Done;
    }

    /** Refused exactly when the organisation is not live, or another live one has the name; otherwise its name and
        nothing else is written. */
    method RenameOrganisation(id: Id, name: string) returns (outcome: Stage)
      modifies this
      ensures (outcome, View()) == Alone(old(View()), key, Rename(id, name), Waiting)
      ensures outcome == (if id !in old(companies) || old(companies)[id].deleted then Refused(NotFound)
                          else if exists c | c in old(companies) && c != id ::
                                !old(companies)[c].deleted && key(old(companies)[c].name) == key(name)
                          then Refused(NameTaken) else Done)
      ensures people == old(people) && departments == old(departments) && next == old(next)
      ensures outcome != Done ==> companies == old(companies)
      ensures outcome == Done ==> companies == old(companies)[id := Company(name, false)]
    {
      AloneFrom(View(), key, Rename(id, name), Waiting);
      AloneFrom(View(), key, Rename(id, name), Holding);
      AloneFrom(View(), key, Rename(id, name), Cleared);
      if id !in companies || companies[id].deleted {
        return Refused(NotFound);
      }
      var taken := NameIsTaken(name, Some(id));
      if taken {
        return Refused(NameTaken);
      }
      companies := companies[id := companies[id].(name := name)];
      outcome := Done;
    }

    /** Refused exactly when the organisation is not live or somebody active belongs to it, and then nothing is
        written; otherwise exactly its people, its departments and itself are marked deleted. */
    method SoftDelete(org: Id) returns (outcome: Stage)
      modifies this
      ensures (outcome, View()) == Alone(old(View()), key, Delete(org), Waiting)
      ensures outcome == (if org !in old(companies) || old(companies)[org].deleted then Refused(NotFound)
                          else if exists p | p in old(people) ::
                            var row := old(people)[p]; row.org == Some(org) && !row.deleted && row.active
                          then Refused(NotEmpty) else Done)
      ensures outcome != Done ==> View() == old(View())
      ensures outcome == Done ==>
                && next == old(next) && people.Keys == old(people).Keys && departments.Keys == old(departments).Keys
                && companies == old(companies)[org := Company(old(companies)[org].name, true)]
                && (forall p | p in people ::
                      var row := old(people)[p];
                      people[p] == if row.org == Some(org) then row.(deleted := true) else row)
                && (forall d | d in departments ::
                      var row := old(departments)[d];
                      departments[d] == if row.org == org then row.(deleted := true) else row)
    {
      hide Alone;
      DeleteAlone(View(), key, org);
      if org !in companies || companies[org].deleted {
        return Refused(NotFound);
      }
      if exists p | p in people :: Belongs(people[p], org) && people[p].active {
        return Refused(NotEmpty);
      }
      var members := set p | p in people && Belongs(people[p], org);
      var units := set d | d in departments && departments[d].org == org && !departments[d].deleted;
      people := map p | p in people :: if p in members then people[p].(deleted := true) else people[p];
      departments := map d | d in departments ::
        if d in units then departments[d].(deleted := true) else departments[d];
      companies := companies[org := companies[org].(deleted := true)];
      assert View() == Sweep(old(View()), org, members, units);
      outcome := Done;
    }

    /** Refused exactly when the e-mail is anybody's, deleted people included, or the organisation is not live or has
        an Admin; otherwise one new active Admin of it and nothing else. */
    method CreateOrgAdmin(org: Id, email: string) returns (outcome: Stage)
      modifies this
      ensures (outcome, View()) == Alone(old(View()), key, CreateAdmin(org, email), Screening)
      ensures outcome == (if exists p | p in old(people) :: old(people)[p].email == email then Refused(EmailInUse)
                          else if org !in old(companies) || old(companies)[org].deleted then Refused(NotFound)
                          else if exists p | p in old(people) ::
                            var row := old(people)[p]; row.org == Some(org) && row.admin && !row.deleted
                          then Refused(AdminExists) else Done)
      ensures companies == old(companies) && departments == old(departments)
      ensures outcome != Done ==> people == old(people) && next == old(next)
      ensures outcome == Done ==>
                people == old(people)[old(next) := Person(Some(org), true, true, false, email)] && next == old(next) + 1
    {
      AloneFrom(View(), key, CreateAdmin(org, email), Screening);
      if exists p | p in people :: people[p].email == email {
        return Refused(EmailInUse);
      }
      AloneFrom(View(), key, CreateAdmin(org, email), Waiting);
      if org !in companies || companies[org].deleted {
        return Refused(NotFound);
      }
      AloneFrom(View(), key, CreateAdmin(org, email), Holding);
      if exists p | p in people :: AdminOf(people[p], org) {
        assert HasAdmin(View(), org, None);
        return Refused(AdminExists);
      }
      AloneFrom(View(), key, CreateAdmin(org, email), Cleared);
      people, next := people[next := Person(Some(org), true, true, false, email)], next + 1;
      outcome := Done;
    }

    /** Refused exactly when the organisation or the person is not live, the person is in another live organisation,
        or is an Admin and it has one; otherwise the person's organisation is written, unless it was that already. */
    method AssignPerson(person: Id, org: Id) returns (outcome: Stage)
      modifies this
      ensures (outcome, View()) == Alone(old(View()), key, Assign(person, org), Waiting)
      ensures outcome == (if org !in old(companies) || old(companies)[org].deleted then Refused(NotFound)
                          else if person !in old(people) || old(people)[person].deleted then Refused(PersonNotFound)
                          else if old(people)[person].org == Some(org) then Done
                          else if old(people)[person].org.Some? && old(people)[person].org.value in old(companies)
                            && !old(companies)[old(people)[person].org.value].deleted
                          then Refused(PersonInOrganisation)
                          else if old(people)[person].admin && exists p | p in old(people) && p != person ::
                            var row := old(people)[p]; row.org == Some(org) && row.admin && !row.deleted
                          then Refused(AdminExists) else Done)
      ensures companies == old(companies) && departments == old(departments) && next == old(next)
      ensures outcome != Done ==> people == old(people)
      ensures outcome == Done ==> people == old(people)[person := old(people)[person].(org := Some(org))]
    {
      AloneFrom(View(), key, Assign(person, org), Waiting);
      if org !in companies || companies[org].deleted {
        return Refused(NotFound);
      }
      AloneFrom(View(), key, Assign(person, org), Holding);
      if person !in people || people[person].deleted {
        return Refused(PersonNotFound);
      }
      var before := people[person];
      var current := Current(View(), before);
      if current == Some(org) {
        return Done;
      }
      if current.Some? {
        return Refused(PersonInOrganisation);
      }
      if before.admin && HasAdmin(View(), org, Some(person)) {
        return Refused(AdminExists);
      }
      AloneFrom(View(), key, Assign(person, org), Cleared);
      people := people[person := before.(org := Some(org))];
      outcome := Done;
    }
  }
}
