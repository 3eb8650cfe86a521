/**
 * The account and team tables and the handlers that change them: create, invite type, comment,
 * delete, area, remove member, and the one column Save writes into.
 */
module Teams {
  import opened Bytes

  datatype Option<T> = None | Some(value: T)

  /** A NULL column is `None`. */
  datatype Account = Account(teamid: Option<nat>, teamarea: Option<nat>)

  datatype Team = Team(leader: nat, name: seq<Byte>, comment: Option<seq<Byte>>, flags: nat, count: nat)

  /** `next` is the id the auto-increment column hands out next. */
  datatype Db = Db(accounts: map<nat, Account>, teams: map<nat, Team>, next: nat)

  // ---------------------------------------------------------------- statements

  function LowerByte(c: Byte): Byte {
    if 65 <= c <= 90 then c + 32 else c
  }

  /** LOWER(...) and tolower, for ASCII. */
  function Lower(s: seq<Byte>): (r: seq<Byte>)
    ensures |r| == |s|
  {
    seq(|s|, i requires 0 <= i < |s| => LowerByte(s[i]))
  }

  predicate NameTaken(teams: map<nat, Team>, name: seq<Byte>) {
    exists t :: t in teams && Lower(teams[t].name) == Lower(name)
  }

  /** The first row, by id, with exactly this name, looked for from `lo` up to `hi`. */
  function FirstNamed(teams: map<nat, Team>, name: seq<Byte>, lo: nat, hi: nat): (r: nat)
    requires lo <= hi
    ensures r < hi ==> r in teams && teams[r].name == name
    ensures lo <= r <= hi && forall t :: lo <= t < r && t in teams ==> teams[t].name != name
    decreases hi - lo
  {
    if lo == hi then hi
    else if lo in teams && teams[lo].name == name then lo
    else FirstNamed(teams, name, lo + 1, hi)
  }

  /** UPDATE team_data SET ... WHERE leader = license. */
  function UpdateWhereLeader(teams: map<nat, Team>, license: nat, change: Team -> Team): map<nat, Team> {
    map t | t in teams :: if teams[t].leader == license then change(teams[t]) else teams[t]
  }

  /**
   * `teamid = NULL AND teamarea = 0` is one assignment, of the three-valued
   * `NULL AND (teamarea = 0)`: false, stored as 0, when the area is neither 0 nor NULL.
   */
  function Expelled(a: Account): Account {
    a.(teamid := if a.teamarea == None || a.teamarea == Some(0) then None else Some(0))
  }

  function UpdateAccounts(accounts: map<nat, Account>, teamid: nat): map<nat, Account> {
    map a | a in accounts :: if accounts[a].teamid == Some(teamid) then Expelled(accounts[a]) else accounts[a]
  }

  function Members(accounts: map<nat, Account>, teamid: nat): set<nat> {
    set a | a in accounts && accounts[a].teamid == Some(teamid)
  }

  /** The account is in some team, going by its own row. */
  predicate InTeam(db: Db, license: nat) {
    license in db.accounts && db.accounts[license].teamid.Some?
  }

  /** The account's own team exists and is led by it: the test in front of every change. */
  predicate Leads(db: Db, license: nat) {
    && InTeam(db, license)
    && db.accounts[license].teamid.value in db.teams
    && db.teams[db.accounts[license].teamid.value].leader == license
  }

  // ---------------------------------------------------------------- handlers on values

  datatype Request =
    | Create(license: nat, name: seq<Byte>)
    | Invite(license: nat, status: nat)
    | Comment(license: nat, text: seq<Byte>)
    | Delete(license: nat)
    | Area(license: nat, member: nat, access: nat)
    | Remove(license: nat, member: nat)
    | Save(license: nat, teamid: Option<nat>)
    | Register(license: nat)

  /** Bit 0 of the flags is replaced. */
  function WithInvite(flags: nat, status: nat): nat {
    flags - flags % 2 + status % 2
  }

  /** The new tables and the result code of the reply. */
  function Handle(db: Db, q: Request): (r: (Db, nat)) {
    match q
    case Create(license, name) =>
      if license !in db.accounts || db.accounts[license].teamid.Some? then (db, 2)
      else if NameTaken(db.teams, name) then (db, 1)
      else
        var teams := db.teams[db.next := Team(license, name, None, 0, 1)];
        var id := FirstNamed(teams, name, 0, db.next + 1);
        (Db(db.accounts[license := db.accounts[license].(teamid := Some(id))], teams, db.next + 1), 0)
    case Invite(license, status) =>
      if !InTeam(db, license) then (db, 2)
      else if !Leads(db, license) then (db, 3)
      else
        var flags := WithInvite(db.teams[db.accounts[license].teamid.value].flags, status);
        (db.(teams := UpdateWhereLeader(db.teams, license, (t: Team) => t.(flags := flags))), 0)
    case Comment(license, text) =>
      if !InTeam(db, license) then (db, 2)
      else if !Leads(db, license) then (db, 3)
      else (db.(teams := UpdateWhereLeader(db.teams, license, (t: Team) => t.(comment := Some(text)))), 0)
    case Delete(license) =>
      if !InTeam(db, license) then (db, 2)
      else if !Leads(db, license) then (db, 3)
      else
        var id := db.accounts[license].teamid.value;
        (db.(teams := db.teams - {id}, accounts := UpdateAccounts(db.accounts, id)), 0)
    case Area(license, member, access) =>
      if Leads(db, license) && member in db.accounts
         && db.accounts[member].teamid == db.accounts[license].teamid then
        (db.(accounts := db.accounts[member := db.accounts[member].(teamarea := Some(access))]), 0)
      else (db, 0)
    case Remove(license, member) =>
      if license != member && Leads(db, license) && member in db.accounts
         && db.accounts[member].teamid == db.accounts[license].teamid then
        var id := db.accounts[license].teamid.value;
        var accounts := db.accounts[member := Expelled(db.accounts[member])];
        var n := |Members(accounts, id)|;
        var counted := db.teams[id].(count := if n > 1 then n - 1 else n);
        (db.(accounts := accounts, teams := if n > 0 then db.teams[id := counted] else db.teams), 0)
      else (db, 1)
    case Save(license, teamid) =>
      if license in db.accounts then
        (db.(accounts := db.accounts[license := db.accounts[license].(teamid := teamid)]), 0)
      else (db, 0)
    case Register(license) =>
      if license in db.accounts then (db, 1)
      else (db.(accounts := db.accounts[license := Account(None, Some(0))]), 0)
  }

  /** How Save stores the team id of a packet. */
  function TeamColumn(teamId: int): Option<nat> {
    if teamId < 0 then None else Some(teamId)
  }

  const NEW_DB: Db := Db(map[], map[], 1)

  // ---------------------------------------------------------------- the object

  class TeamTables {
    var accounts: map<nat, Account>
    var teams: map<nat, Team>
    var next: nat

    function Tables(): Db
      reads this
    {
      Db(accounts, teams, next)
    }

    /** The team invariant; only a Save can break it. */
    ghost predicate Valid()
      reads this
    {
      TeamInv(Tables())
    }

    constructor ()
      ensures Valid() && Tables() == NEW_DB
    {
      accounts, teams, next := map[], map[], 1;
    }

    method CreateTeam(license: nat, name: seq<Byte>) returns (result: nat)
      modifies this
      ensures (Tables(), result) == Handle(old(Tables()), Create(license, name))
      ensures old(Valid()) ==> Valid()
    {
      KeepsInv(Create(license, name));
      result := 1;
      if license in accounts && accounts[license].teamid == None {
        var res := set t | t in teams && Lower(teams[t].name) == Lower(name);
        assert res == {} <==> !NameTaken(teams, name) by {
          if NameTaken(teams, name) {
            var t :| t in teams && Lower(teams[t].name) == Lower(name);
            assert t in res;
          }
        }
        if res == {} {
          var id := next;
          teams, next := teams[id := Team(license, name, None, 0, 1)], next + 1;
          var row := FirstNamed(teams, name, 0, next);
          accounts := accounts[license := accounts[license].(teamid := Some(row))];
          result := 0;
        }
      } else {
        result := 2;
      }
    }

    method UpdateInvite(license: nat, inviteStatus: nat) returns (result: nat)
      modifies this
      ensures (Tables(), result) == Handle(old(Tables()), Invite(license, inviteStatus))
      ensures old(Valid()) ==> Valid()
    {
      KeepsInv(Invite(license, inviteStatus));
      if license in accounts && accounts[license].teamid != None {
        var teamid := accounts[license].teamid.value;
        if teamid in teams && teams[teamid].leader == license {
          var flag := teams[teamid].flags;
          flag := flag - flag % 2;
          flag := flag + inviteStatus % 2;
          teams := UpdateWhereLeader(teams, license, (t: Team) => t.(flags := flag));
          result := 0;
        } else {
          result := 3;
        }
      } else {
        result := 2;
      }
    }

    method UpdateComment(license: nat, text: seq<Byte>) returns (result: nat)
      modifies this
      ensures (Tables(), result) == Handle(old(Tables()), Comment(license, text))
      ensures old(Valid()) ==> Valid()
    {
      KeepsInv(Comment(license, text));
      if license in accounts && accounts[license].teamid != None {
        var teamid := accounts[license].teamid.value;
        if teamid in teams && teams[teamid].leader == license {
          teams := UpdateWhereLeader(teams, license, (t: Team) => t.(comment := Some(text)));
          result := 0;
        } else {
          result := 3;
        }
      } else {
        result := 2;
      }
    }

    method DeleteTeam(license: nat) returns (result: nat)
      modifies this
      ensures (Tables(), result) == Handle(old(Tables()), Delete(license))
      ensures old(Valid()) ==> Valid()
    {
      KeepsInv(Delete(license));
      if license in accounts && accounts[license].teamid != None {
        var teamid := accounts[license].teamid.value;
        if teamid in teams && teams[teamid].leader == license {
          teams := teams - {teamid};
          accounts := UpdateAccounts(accounts, teamid);
          result := 0;
        } else {
          result := 3;
        }
      } else {
        result := 2;
      }
    }

    method AdjustArea(license: nat, memberID: nat, access: nat)
      modifies this
      ensures Tables() == Handle(old(Tables()), Area(license, memberID, access)).0
      ensures old(Valid()) ==> Valid()
    {
      KeepsInv(Area(license, memberID, access));
      if license in accounts && accounts[license].teamid != None {
        var teamid := accounts[license].teamid.value;
        if teamid in teams && teams[teamid].leader == license {
          if memberID in accounts && accounts[memberID].teamid == Some(teamid) {
            accounts := accounts[memberID := accounts[memberID].(teamarea := Some(access))];
          }
        }
      }
    }

    method RemoveMember(license: nat, memberID: nat) returns (result: nat)
      modifies this
      ensures (Tables(), result) == Handle(old(Tables()), Remove(license, memberID))
      ensures old(Valid()) ==> Valid()
    {
      KeepsInv(Remove(license, memberID));
      result := 1;
      if license != memberID && license in accounts && accounts[license].teamid != None {
        var teamid := accounts[license].teamid.value;
        if teamid in teams && teams[teamid].leader == license {
          if memberID in accounts && accounts[memberID].teamid == Some(teamid) {
            accounts := accounts[memberID := Expelled(accounts[memberID])];
            var teamcount := |Members(accounts, teamid)|;
            if teamcount > 0 {
              if teamcount > 1 {
                teamcount := teamcount - 1;
              }
              teams := teams[teamid := teams[teamid].(count := teamcount)];
            }
            result := 0;
          }
        }
      }
    }

    /**
     * The team column of the Save handler: a negative id is stored as NULL. Nothing but the row of
     * the licence changes, and the invariant survives exactly if a well-behaved client sent the id.
     */
    method SaveTeam(license: nat, teamId: int)
      modifies this
      ensures Tables() == Handle(old(Tables()), Save(license, TeamColumn(teamId))).0
      ensures teams == old(teams) && next == old(next) && accounts.Keys == old(accounts.Keys)
      ensures forall a :: a in accounts ==> accounts[a].teamarea == old(accounts)[a].teamarea
      ensures forall a :: a in accounts ==>
                            accounts[a].teamid == if a != license then old(accounts)[a].teamid
                                                  else if teamId < 0 then None else Some(teamId)
      ensures old(Valid()) ==>
                (Valid() <==> license !in old(accounts) || SaveAllowed(old(Tables()), license, TeamColumn(teamId)))
    {
      if TeamInv(Tables()) {
        SaveKeepsInvIff(Tables(), license, TeamColumn(teamId));
      }
      if license in accounts {
        accounts := accounts[license := accounts[license].(teamid := if teamId < 0 then None else Some(teamId))];
      }
    }

    lemma KeepsInv(q: Request)
      requires !q.Save?
      ensures Valid() ==> TeamInv(Handle(Tables(), q).0)
    {
      if Valid() {
        HandleKeepsInv(Tables(), q);
      }
    }
  }

  // ---------------------------------------------------------------- the invariant

  predicate TeamInv(db: Db) {
    && db.next > 0
    && (forall t :: t in db.teams ==> 0 < t < db.next)
    && (forall t :: t in db.teams ==>
                      db.teams[t].leader in db.accounts && db.accounts[db.teams[t].leader].teamid == Some(t))
    && (forall t, u :: t in db.teams && u in db.teams && t != u ==>
                         Lower(db.teams[t].name) != Lower(db.teams[u].name))
    && (forall a :: a in db.accounts ==>
                      db.accounts[a].teamid == None || db.accounts[a].teamid == Some(0)
                      || db.accounts[a].teamid.value in db.teams)
  }

  /** No account leads two teams. */
  lemma LeadsAtMostOne(db: Db, t: nat, u: nat)
    requires TeamInv(db) && t in db.teams && u in db.teams && db.teams[t].leader == db.teams[u].leader
    ensures t == u
  {
  }

  /** `WHERE leader = license` hits exactly the leader's own team. */
  lemma UpdateHitsOne(db: Db, license: nat, change: Team -> Team)
    requires TeamInv(db) && Leads(db, license)
    ensures var t := db.accounts[license].teamid.value;
            UpdateWhereLeader(db.teams, license, change) == db.teams[t := change(db.teams[t])]
  {
  }

  /** The team found by name after the insertion is the inserted one. */
  lemma CreateFindsItself(db: Db, license: nat, name: seq<Byte>)
    requires TeamInv(db) && !NameTaken(db.teams, name)
    ensures FirstNamed(db.teams[db.next := Team(license, name, None, 0, 1)], name, 0, db.next + 1) == db.next
  {
    var teams := db.teams[db.next := Team(license, name, None, 0, 1)];
    forall t | t in db.teams ensures teams[t].name != name {
      assert Lower(db.teams[t].name) != Lower(name);
    }
    assert db.next in teams && teams[db.next].name == name;
  }

  /** What Save may write: a leader's own team, and for the others nothing, 0 or a live team. */
  predicate SaveAllowed(db: Db, license: nat, teamid: Option<nat>) {
    && (teamid == None || teamid == Some(0) || teamid.value in db.teams)
    && (forall t :: t in db.teams && db.teams[t].leader == license ==> teamid == Some(t))
  }

  /** Save keeps the team invariant exactly when it writes what a well-behaved client has. */
  lemma SaveKeepsInvIff(db: Db, license: nat, teamid: Option<nat>)
    requires TeamInv(db)
    ensures TeamInv(Handle(db, Save(license, teamid)).0) <==>
            license !in db.accounts || SaveAllowed(db, license, teamid)
  {
    hide Lower, NameTaken, FirstNamed, UpdateWhereLeader, UpdateAccounts, Members, Expelled;
    var after := Handle(db, Save(license, teamid)).0;
    if license in db.accounts {
      assert after.accounts[license].teamid == teamid;
      if TeamInv(after) {
        forall t | t in db.teams && db.teams[t].leader == license ensures teamid == Some(t) {
          assert after.accounts[after.teams[t].leader].teamid == Some(t);
        }
      }
    }
  }

  /**
   * A leader whose Save carries no team id breaks the invariant: an account registers, founds a
   * team named "A", and saves.
   */
  lemma SaveCanBreakInv()
    ensures var run := [Register(7), Create(7, [65]), Save(7, TeamColumn(-1))];
            && TeamInv(HandleAll(NEW_DB, run[..2]))
            && HandleAll(NEW_DB, run[..2]).teams == map[1 := Team(7, [65], None, 0, 1)]
            && !TeamInv(HandleAll(NEW_DB, run))
  {
    hide Lower, UpdateWhereLeader, UpdateAccounts, Members, Expelled;
    var run := [Register(7), Create(7, [65]), Save(7, TeamColumn(-1))];
    assert run[..2][..1] == run[..1] && run[..1][..0] == [];
    var one, two := HandleAll(NEW_DB, run[..1]), HandleAll(NEW_DB, run[..2]);
    assert one == Handle(HandleAll(NEW_DB, []), Register(7)).0;
    assert one == Db(map[7 := Account(None, Some(0))], map[], 1);
    CreateSucceedsIff(one, 7, [65]);
    assert two == Db(map[7 := Account(Some(1), Some(0))], map[1 := Team(7, [65], None, 0, 1)], 2);
    SaveKeepsInvIff(two, 7, None);
    assert !SaveAllowed(two, 7, None) by { assert 1 in two.teams; }
  }

  lemma UpdateKeepsInv(db: Db, license: nat, change: Team -> Team)
    requires TeamInv(db) && Leads(db, license)
    requires forall t :: change(t).leader == t.leader && change(t).name == t.name
    ensures TeamInv(db.(teams := UpdateWhereLeader(db.teams, license, change)))
  {
    hide Lower;
  }

  lemma DeleteKeepsInv(db: Db, id: nat)
    requires TeamInv(db) && id in db.teams
    ensures TeamInv(db.(teams := db.teams - {id}, accounts := UpdateAccounts(db.accounts, id)))
  {
    hide Lower;
  }

  lemma CreateKeepsInv(db: Db, license: nat, name: seq<Byte>)
    requires TeamInv(db)
    ensures TeamInv(Handle(db, Create(license, name)).0)
  {
    hide Lower, FirstNamed, UpdateWhereLeader, UpdateAccounts, Members, Expelled;
    if license in db.accounts && db.accounts[license].teamid == None && !NameTaken(db.teams, name) {
      CreateFindsItself(db, license, name);
      var after := Handle(db, Create(license, name)).0;
      forall t | t in after.teams
        ensures after.teams[t].leader in after.accounts && after.accounts[after.teams[t].leader].teamid == Some(t)
      {
        if t != db.next {
          assert db.accounts[db.teams[t].leader].teamid == Some(t);
        }
      }
    }
  }

  /** Taking one member other than the leader out of a team, and recounting. */
  lemma ExpelKeepsInv(db: Db, id: nat, member: nat, counted: Team)
    requires TeamInv(db) && id in db.teams && member in db.accounts
    requires db.accounts[member].teamid == Some(id) && db.teams[id].leader != member
    requires counted.leader == db.teams[id].leader && counted.name == db.teams[id].name
    ensures TeamInv(db.(accounts := db.accounts[member := Expelled(db.accounts[member])],
                        teams := db.teams[id := counted]))
  {
    hide Lower;
    var accounts := db.accounts[member := Expelled(db.accounts[member])];
    var after := db.(accounts := accounts, teams := db.teams[id := counted]);
    forall t | t in after.teams
      ensures after.teams[t].leader in after.accounts && after.accounts[after.teams[t].leader].teamid == Some(t)
    {
      assert db.teams[t].leader != member;
    }
    assert forall t :: t in after.teams ==> after.teams[t].name == db.teams[t].name;
  }

  lemma RemoveKeepsInv(db: Db, license: nat, member: nat)
    requires TeamInv(db)
    ensures TeamInv(Handle(db, Remove(license, member)).0)
  {
    hide TeamInv, NameTaken, FirstNamed, UpdateWhereLeader, UpdateAccounts, Members, Expelled;
    if license != member && Leads(db, license) && member in db.accounts
       && db.accounts[member].teamid == db.accounts[license].teamid {
      var id := db.accounts[license].teamid.value;
      var after := Handle(db, Remove(license, member)).0;
      assert db.teams[id := db.teams[id]] == db.teams;
      ExpelKeepsInv(db, id, member, after.teams[id]);
    }
  }

  /**
   * What a client must not do: save another team id than its own for a leader, or for another
   * account one that is neither NULL nor 0 nor a live team.
   */
  predicate Permitted(db: Db, q: Request) {
    q.Save? && q.license in db.accounts ==> SaveAllowed(db, q.license, q.teamid)
  }

  lemma HandleKeepsInv(db: Db, q: Request)
    requires TeamInv(db) && Permitted(db, q)
    ensures TeamInv(Handle(db, q).0)
  {
    match q
    case Create(license, name) => CreateKeepsInv(db, license, name);
    case Invite(license, status) =>
      if Leads(db, license) {
        var flags := WithInvite(db.teams[db.accounts[license].teamid.value].flags, status);
        UpdateKeepsInv(db, license, (t: Team) => t.(flags := flags));
      }
    case Comment(license, text) =>
      if Leads(db, license) {
        UpdateKeepsInv(db, license, (t: Team) => t.(comment := Some(text)));
      }
    case Delete(license) =>
      if Leads(db, license) {
        DeleteKeepsInv(db, db.accounts[license].teamid.value);
      }
    case Area(license, member, access) =>
    case Remove(license, member) => RemoveKeepsInv(db, license, member);
    case Save(license, teamid) => SaveKeepsInvIff(db, license, teamid);
    case Register(license) =>
  }

  function HandleAll(db: Db, qs: seq<Request>): Db {
    if qs == [] then db else Handle(HandleAll(db, qs[..|qs| - 1]), qs[|qs| - 1]).0
  }

  predicate AllPermitted(db: Db, qs: seq<Request>) {
    qs == [] || (AllPermitted(db, qs[..|qs| - 1]) && Permitted(HandleAll(db, qs[..|qs| - 1]), qs[|qs| - 1]))
  }

  /** The invariant holds before, during and after the run. */
  predicate AlwaysInv(db: Db, qs: seq<Request>) {
    TeamInv(HandleAll(db, qs)) && (qs != [] ==> AlwaysInv(db, qs[..|qs| - 1]))
  }

  /**
   * Over every run from sound tables, such as the empty ones: the invariant holds all the way
   * exactly when every Save of the run writes what it may.
   */
  lemma {:induction false} RunsKeepTeamsIff(db: Db, qs: seq<Request>)
    requires TeamInv(db)
    ensures AlwaysInv(db, qs) <==> AllPermitted(db, qs)
  {
    if qs != [] {
      var before, q := HandleAll(db, qs[..|qs| - 1]), qs[|qs| - 1];
      RunsKeepTeamsIff(db, qs[..|qs| - 1]);
      if AlwaysInv(db, qs[..|qs| - 1]) {
        if q.Save? {
          SaveKeepsInvIff(before, q.license, q.teamid);
        } else {
          HandleKeepsInv(before, q);
        }
      }
    }
  }

  // ---------------------------------------------------------------- authority

  /** A team row changes or disappears only through its leader. */
  lemma OnlyTheLeaderChangesATeam(db: Db, q: Request, t: nat)
    requires TeamInv(db) && t in db.teams
    ensures var after := Handle(db, q).0;
            t !in after.teams || after.teams[t] != db.teams[t] ==>
              (q.Invite? || q.Comment? || q.Delete? || q.Remove?) && q.license == db.teams[t].leader
  {
    hide Lower, NameTaken, FirstNamed, UpdateAccounts, Members, Expelled;
    if (q.Invite? || q.Comment?) && Leads(db, q.license) {
      assert db.teams[t].leader != q.license ==>
               forall change :: UpdateWhereLeader(db.teams, q.license, change)[t] == db.teams[t];
    }
  }

  /**
   * An account's team columns change through the team handlers only when it founds a team
   * itself, or through the leader of the team it is in.
   */
  lemma OnlyTheLeaderChangesMembers(db: Db, q: Request, a: nat)
    requires TeamInv(db) && a in db.accounts && !q.Save?
    requires Handle(db, q).0.accounts[a] != db.accounts[a]
    ensures || (q.Create? && q.license == a && db.accounts[a].teamid == None)
            || (db.accounts[a].teamid.Some? && db.accounts[a].teamid.value in db.teams
                && db.teams[db.accounts[a].teamid.value].leader == q.license)
  {
  }

  lemma TeamsStay(db: Db, q: Request, t: nat)
    requires TeamInv(db) && t in db.teams && !q.Delete?
    ensures t in Handle(db, q).0.teams && Handle(db, q).0.teams[t].leader == db.teams[t].leader
  {
    hide Lower, NameTaken, FirstNamed, UpdateAccounts, Members, Expelled;
  }

  /** A leader is never removed as a member and never loses its team but by deleting it. */
  lemma LeadersStay(db: Db, q: Request, t: nat)
    requires TeamInv(db) && t in db.teams && !q.Save? && !q.Delete?
    ensures t in Handle(db, q).0.teams && Handle(db, q).0.teams[t].leader == db.teams[t].leader
    ensures db.teams[t].leader in Handle(db, q).0.accounts
    ensures Handle(db, q).0.accounts[db.teams[t].leader].teamid == Some(t)
  {
    hide Handle;
    TeamsStay(db, q, t);
    HandleKeepsInv(db, q);
  }

  /** The invite update of a leader changes bit 0 of its own team's flags and nothing else at all. */
  lemma InviteChangesOneBit(db: Db, license: nat, status: nat)
    requires TeamInv(db) && Leads(db, license)
    ensures var t := db.accounts[license].teamid.value;
            var flags := WithInvite(db.teams[t].flags, status);
            && Handle(db, Invite(license, status)) == (db.(teams := db.teams[t := db.teams[t].(flags := flags)]), 0)
            && flags / 2 == db.teams[t].flags / 2 && flags % 2 == status % 2
  {
    var t := db.accounts[license].teamid.value;
    var flags := WithInvite(db.teams[t].flags, status);
    UpdateHitsOne(db, license, (x: Team) => x.(flags := flags));
  }

  /** A successful creation adds exactly the new team and makes the founder its member and leader. */
  lemma CreateSucceedsIff(db: Db, license: nat, name: seq<Byte>)
    requires TeamInv(db)
    ensures var (after, code) := Handle(db, Create(license, name));
            && (code == 0 <==> license in db.accounts && db.accounts[license].teamid == None
                               && forall t :: t in db.teams ==> Lower(db.teams[t].name) != Lower(name))
            && (code == 0 ==> after == Db(db.accounts[license := db.accounts[license].(teamid := Some(db.next))],
                                          db.teams[db.next := Team(license, name, None, 0, 1)], db.next + 1))
            && (code != 0 ==> after == db)
            && (code == 2 <==> license !in db.accounts || db.accounts[license].teamid != None)
            && code <= 2
  {
    if !NameTaken(db.teams, name) {
      CreateFindsItself(db, license, name);
    }
  }

  /** Names are compared without regard to case. */
  lemma LowerIs(c: Byte, d: Byte)
    ensures LowerByte(c) == LowerByte(d) <==> c == d || (65 <= c <= 90 && d == c + 32) || (65 <= d <= 90 && c == d + 32)
  {
  }

  predicate IsLeader(db: Db, license: nat) {
    exists t :: t in db.teams && db.teams[t].leader == license
  }

  /** Leading a team, going by the account's own row, is being the leader of some team. */
  lemma LeadsIff(db: Db, license: nat)
    requires TeamInv(db)
    ensures Leads(db, license) <==> IsLeader(db, license)
    ensures IsLeader(db, license) ==>
              InTeam(db, license) && db.teams[db.accounts[license].teamid.value].leader == license
  {
  }

  /**
   * The codes of the other replies: 2 for an account that is in no team, 3 for a member that is
   * not the leader, 0 for the leader. A request with another code changes nothing.
   */
  lemma ResultCodes(db: Db, q: Request)
    requires TeamInv(db)
    ensures q.Invite? || q.Comment? || q.Delete? ==>
              Handle(db, q).1 == if !InTeam(db, q.license) then 2 else if !IsLeader(db, q.license) then 3 else 0
    ensures Handle(db, q).1 != 0 ==> Handle(db, q).0 == db
  {
    LeadsIff(db, q.license);
  }

  /** The leader sets the area of exactly the member it names; any other request leaves everything as it was. */
  lemma AreaChangesOneMember(db: Db, license: nat, member: nat, access: nat)
    requires TeamInv(db)
    ensures var after := Handle(db, Area(license, member, access)).0;
            if IsLeader(db, license) && member in Members(db.accounts, db.accounts[license].teamid.value)
            then after == db.(accounts := db.accounts[member := Account(db.accounts[member].teamid, Some(access))])
            else after == db
  {
    LeadsIff(db, license);
  }

  /** A new account is in no team and has area 0; an old one stays. */
  lemma RegisterAddsOne(db: Db, license: nat)
    ensures Handle(db, Register(license)).0 ==
            if license in db.accounts then db
            else db.(accounts := db.accounts[license := Account(None, Some(0))])
  {
  }

  /** Deleting a team leaves no account in it; members with an area are left with id 0. */
  lemma DeleteEmptiesTheTeam(db: Db, license: nat, a: nat)
    requires TeamInv(db) && Leads(db, license) && a in db.accounts
    ensures var t := db.accounts[license].teamid.value;
            var after := Handle(db, Delete(license)).0;
            && t !in after.teams && Members(after.accounts, t) == {}
            && (db.accounts[a].teamid == Some(t) ==>
                  after.accounts[a].teamid == if db.accounts[a].teamarea == None || db.accounts[a].teamarea == Some(0)
                                              then None else Some(0))
            && (db.accounts[a].teamid != Some(t) ==> after.accounts[a] == db.accounts[a])
            && after.accounts.Keys == db.accounts.Keys && after.accounts[a].teamarea == db.accounts[a].teamarea
            && after.teams == db.teams - {t} && after.next == db.next
  {
  }

  /** A comment goes to the caller's own team, if the caller leads one, and changes nothing else. */
  lemma CommentReachesOneTeam(db: Db, license: nat, text: seq<Byte>)
    requires TeamInv(db)
    ensures var (after, code) := Handle(db, Comment(license, text));
            && (code == 0 <==> exists t :: t in db.teams && db.teams[t].leader == license)
            && (code == 0 ==>
                  exists t :: t in db.teams && db.teams[t].leader == license
                              && after == db.(teams := db.teams[t := db.teams[t].(comment := Some(text))]))
            && (code != 0 ==> after == db)
  {
    if Leads(db, license) {
      UpdateHitsOne(db, license, (x: Team) => x.(comment := Some(text)));
    }
  }

  /**
   * A removal succeeds exactly when a leader names another member of its team. It takes that
   * account out of the team and leaves all other accounts, memberships and teams alone.
   */
  lemma {:induction false} RemoveTakesOutOne(db: Db, license: nat, member: nat)
    requires TeamInv(db)
    ensures var (after, code) := Handle(db, Remove(license, member));
            && (code == 0 <==> license != member
                               && exists t :: t in db.teams && db.teams[t].leader == license
                                              && member in Members(db.accounts, t))
            && (code == 0 ==>
                  && after.accounts.Keys == db.accounts.Keys && after.teams.Keys == db.teams.Keys
                  && (forall a :: a in db.accounts && a != member ==> after.accounts[a] == db.accounts[a])
                  && (forall t :: t in db.teams ==>
                        if db.teams[t].leader == license then
                          Members(after.accounts, t) == Members(db.accounts, t) - {member}
                        else
                          Members(after.accounts, t) == Members(db.accounts, t) && after.teams[t] == db.teams[t]))
            && (code != 0 ==> after == db)
            && code <= 1
  {
    hide Lower, NameTaken, FirstNamed, UpdateWhereLeader, UpdateAccounts;
    if license != member && Leads(db, license) && member in db.accounts
       && db.accounts[member].teamid == db.accounts[license].teamid {
      assert member in Members(db.accounts, db.accounts[license].teamid.value);
    }
  }

  /**
   * The rows a removal changes: the member's team id becomes NULL, or 0 if it has an area, and the
   * leader's team counts one less than the members it still has, but at least one.
   */
  lemma RemoveChangesTwoRows(db: Db, license: nat, member: nat)
    requires TeamInv(db) && Handle(db, Remove(license, member)).1 == 0
    ensures IsLeader(db, license) && member in db.accounts
    ensures var id := db.accounts[license].teamid.value;
            var area := db.accounts[member].teamarea;
            var left := |Members(db.accounts, id)| - 1;
            && id in db.teams && left >= 1
            && Handle(db, Remove(license, member)).0 ==
               db.(accounts := db.accounts[member := Account(if area in {None, Some(0)} then None else Some(0), area)],
                   teams := db.teams[id := db.teams[id].(count := if left > 1 then left - 1 else left)])
  {
    hide Lower, NameTaken, FirstNamed, UpdateWhereLeader, UpdateAccounts;
    var id := db.accounts[license].teamid.value;
    var accounts := db.accounts[member := Expelled(db.accounts[member])];
    assert member in Members(db.accounts, id) && license in Members(accounts, id);
    assert Members(accounts, id) == Members(db.accounts, id) - {member};
  }
}
