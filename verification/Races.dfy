/**
 Two concrete runs, from the first launch on, in which every administrator is lost: why
 block, and why promote beside a deletion, are outside the unconditional results.
 */
module Races {
  import opened Wrappers
  import opened Admins
  import opened Auth
  import opened Requests
  import opened Runs
  import opened Schema
  import opened Tokens
  import opened Transactions

  // ---- The installation: one administrator, one user, an admin token ----

  function Account(name: string, role: Role): User {
    User(name, name + "@example.org", None, role, Active, "idp", name, 0, 0)
  }

  function RootToken(prefix: string): string { FormatAdmin(prefix, seq(64, _ => '0')) }

  function Installed(prefix: string): Tables {
    Tables(map["a" := Account("a", Administrator), "b" := Account("b", RegularUser)], map[], map[], map[], map[], None,
           Some(Sha256(RootToken(prefix))))
  }

  function Idle(prefix: string): System { System(Installed(prefix), {}, map[]) }

  function CalmEnv(): Env { Env(0, 0, "", [], {}, true, (db, id) => HookOk(db), None) }

  function Bearer(prefix: string): string { "Bearer " + RootToken(prefix) }

  lemma TokenIsAccepted(prefix: string)
    ensures CheckCredential(prefix, Installed(prefix), 0, Bearer(prefix)) == Authenticated(AdminAuth)
  {
    var hex: string := seq(64, _ => '0');
    assert TrimBearer(Bearer(prefix)) == RootToken(prefix);
    AdminRoundTrip(prefix, hex);
  }

  lemma Resolves(prefix: string, name: string)
    requires name == "a" || name == "b"
    ensures ResolveUser(Installed(prefix), UserSelector(name)) == Some(name)
  {
    var db := Installed(prefix);
    assert UserSelector(name) == ByName(name);
    assert SelectsUser(db, ByName(name), name);
    var found := ResolveUser(db, ByName(name)).value;
    assert SelectsUser(db, ByName(name), found);
  }

  // ---- Reading ----

  /** The requests of the two runs. */
  predicate Featured(req: Request) { (Lifecycle(req) || req.DeleteUser?) && (req.sel == "a" || req.sel == "b") }

  lemma StartStep(prefix: string, req: Request)
    requires Featured(req)
    ensures Step(prefix, {}, Installed(prefix), Start(Bearer(prefix), req), CalmEnv())
            == Next([], At(AdminAuth, req, Enter))
  {
    hide StepHandler, CheckCredential;
    TokenIsAccepted(prefix);
  }

  lemma EnterStep(prefix: string, req: Request)
    requires Featured(req)
    ensures Step(prefix, {}, Installed(prefix), At(AdminAuth, req, Enter), CalmEnv())
            == Next([], At(AdminAuth, req, Target(req.sel)))
  {
    hide StepAccounts, StepPats, StepOrgs, StepKeys, ResolveUser, UserSelector, ResolveOrg, OrgSelector, Installed;
    Resolves(prefix, req.sel);
  }

  lemma TargetStep(prefix: string, req: Request)
    requires Featured(req) && (Lifecycle(req) ==> !AlreadySo(req, Installed(prefix).users[req.sel]))
    ensures Step(prefix, {}, Installed(prefix), At(AdminAuth, req, Target(req.sel)), CalmEnv())
            == Next([], At(AdminAuth, req, Snapshot(req.sel, Installed(prefix).users[req.sel])))
  {
    hide StepPats, StepOrgs, StepKeys, EnterAdmin, StepCreateUser, StepUpdateUser, StepAdminRevoke, StepProfile;
  }

  lemma SnapshotStep(prefix: string, req: Request)
    requires req == DeleteUser("b")
    ensures var row := Installed(prefix).users["b"];
            Step(prefix, {}, Installed(prefix), At(AdminAuth, req, Snapshot("b", row)), CalmEnv())
            == Next([], At(AdminAuth, req, Approved("b", row)))
  {
    hide StepPats, StepOrgs, StepKeys, EnterAdmin, StepCreateUser, StepUpdateUser, StepAdminRevoke, StepProfile,
      StepLifecycle;
  }

  // ---- Running ----

  /** A statement that writes nothing moves its thread and nothing else. */
  lemma Moves(prefix: string, s: System, tid: nat, t: Thread, next: Thread)
    requires tid in s.threads && s.threads[tid] == t && Step(prefix, s.registry, s.db, t, CalmEnv()) == Next([], next)
    ensures Occur(prefix, s, Advance(tid, CalmEnv())) == s.(threads := s.threads[tid := next])
  {
    hide Step;
    assert ApplyAll(s.db, []) == s.db;
  }

  function Reading(prefix: string, tid: nat, req: Request): seq<Event> {
    [Launch(tid, Bearer(prefix), req), Advance(tid, CalmEnv()), Advance(tid, CalmEnv()), Advance(tid, CalmEnv())]
  }

  function ReadBy(prefix: string, req: Request): Thread
    requires Featured(req)
  {
    At(AdminAuth, req, Snapshot(req.sel, Installed(prefix).users[req.sel]))
  }

  /** From launch to the row read: authentication, resolution, fetch. */
  lemma ReadsItsRow(prefix: string, s: System, tid: nat, req: Request)
    requires s.db == Installed(prefix) && s.registry == {} && tid !in s.threads
    requires Featured(req) && (Lifecycle(req) ==> !AlreadySo(req, Installed(prefix).users[req.sel]))
    ensures Run(prefix, s, Reading(prefix, tid, req)) == s.(threads := s.threads[tid := ReadBy(prefix, req)])
  {
    hide Step, Occur, Installed, Bearer;
    var launch, advance := Launch(tid, Bearer(prefix), req), Advance(tid, CalmEnv());
    var s0 := Occur(prefix, s, launch);
    assert s0 == s.(threads := s.threads[tid := Start(Bearer(prefix), req)]) by { Launches(prefix, s, launch); }
    StartStep(prefix, req);
    Moves(prefix, s0, tid, Start(Bearer(prefix), req), At(AdminAuth, req, Enter));
    var s1 := Occur(prefix, s0, advance);
    EnterStep(prefix, req);
    Moves(prefix, s1, tid, At(AdminAuth, req, Enter), At(AdminAuth, req, Target(req.sel)));
    var s2 := Occur(prefix, s1, advance);
    TargetStep(prefix, req);
    Moves(prefix, s2, tid, At(AdminAuth, req, Target(req.sel)), ReadBy(prefix, req));
    var s3 := Occur(prefix, s2, advance);
    assert s3.threads == s.threads[tid := ReadBy(prefix, req)];
    assert Reading(prefix, tid, req) == [launch] + ([advance] + ([advance] + [advance]));
    RunConcat(prefix, s, [launch], [advance] + ([advance] + [advance]));
    RunOne(prefix, s, launch);
    RunConcat(prefix, s0, [advance], [advance] + [advance]);
    RunOne(prefix, s0, advance);
    RunConcat(prefix, s1, [advance], [advance]);
    RunOne(prefix, s1, advance);
    RunOne(prefix, s2, advance);
  }

  lemma Launches(prefix: string, s: System, ev: Event)
    requires ev.Launch? && ev.tid !in s.threads && !Public(ev.req)
    ensures Occur(prefix, s, ev) == s.(threads := s.threads[ev.tid := Start(ev.token, ev.req)])
  {
  }

  // ---- Writing ----

  lemma PromoteRow(prefix: string, registry: set<string>, db: Tables, t: Thread, e: Env)
    requires t.At? && t.req.Promote? && t.pc.Snapshot? && Update !in e.faults
    ensures Step(prefix, registry, db, t, e) == Next([SetRole(t.pc.id, Administrator, Truncated(e.now))], Done(200, ""))
  {
    hide StepPats, StepOrgs, StepKeys, EnterAdmin;
  }

  lemma DemoteRow(prefix: string, registry: set<string>, db: Tables, t: Thread, e: Env)
    requires t.At? && t.req.Demote? && t.pc.Snapshot? && Update !in e.faults
    requires t.pc.id in db.users && db.users[t.pc.id].role == Administrator && |ActiveAdmins(db.users)| > 1
    ensures Step(prefix, registry, db, t, e) == Next([SetRole(t.pc.id, RegularUser, Truncated(e.now))], Done(200, ""))
  {
    hide StepPats, StepOrgs, StepKeys, EnterAdmin;
  }

  lemma DeleteRow(prefix: string, registry: set<string>, db: Tables, t: Thread, e: Env)
    requires t.At? && t.req.DeleteUser? && t.pc.Approved? && !IsActiveAdmin(t.pc.row) && t.pc.id in db.users
    requires e.faults == {} && LeavesUsers(e.hook) && e.hook(ApplyAll(db, Purge(t.pc.id)), t.pc.id).HookOk?
    ensures ActiveAdmins(ApplyAll(db, Step(prefix, registry, db, t, e).writes).users) == ActiveAdmins(db.users) - {t.pc.id}
  {
    hide StepPats, StepOrgs, StepKeys, EnterAdmin, ApplyAll, Purge, LeavesUsers;
    DeleteEffect(db, t.pc.id, false, e);
  }

  lemma Promoted(db: Tables, w: Write)
    requires w.SetRole? && w.id in db.users
    ensures Apply(db, w).users == db.users[w.id := db.users[w.id].(role := w.role, updatedAt := w.at)]
  {
  }

  lemma BlockRow(prefix: string, registry: set<string>, db: Tables, t: Thread, e: Env)
    requires t.At? && t.req.Block? && t.pc.Snapshot? && Update !in e.faults
    ensures Step(prefix, registry, db, t, e) == Next([SetStatus(t.pc.id, Blocked, Truncated(e.now))], Done(200, ""))
  {
    hide StepPats, StepOrgs, StepKeys, EnterAdmin;
  }

  // ---- Block ----

  /** Blocking the only administrator succeeds. */
  lemma BlockLeavesNobody(prefix: string)
    ensures ActiveAdmins(Idle(prefix).db.users) == {"a"}
    ensures var end := Run(prefix, Idle(prefix), Reading(prefix, 0, Block("a")) + [Advance(0, CalmEnv())]);
            0 in end.threads && end.threads[0] == Done(200, "") && ActiveAdmins(end.db.users) == {}
  {
    hide Step, Apply, ApplyAll;
    var e := CalmEnv();
    var s0 := Idle(prefix);
    ReadsItsRow(prefix, s0, 0, Block("a"));
    var s1 := s0.(threads := s0.threads[0 := ReadBy(prefix, Block("a"))]);
    BlockRow(prefix, {}, s1.db, s1.threads[0], e);
    var w := SetStatus("a", Blocked, 0);
    ApplyOne(s1.db, w);
    Blocks(s1.db, w);
    RunConcat(prefix, s0, Reading(prefix, 0, Block("a")), [Advance(0, e)]);
    RunOne(prefix, s1, Advance(0, e));
  }

  lemma Blocks(db: Tables, w: Write)
    requires w.SetStatus? && w.id in db.users
    ensures Apply(db, w).users == db.users[w.id := db.users[w.id].(status := w.status, updatedAt := w.at)]
  {
  }

  // ---- Promote beside a deletion ----

  /** b's deletion is approved while b is a regular user; then b's promotion and a's demotion have read. */
  function Preparation(prefix: string): seq<Event> {
    Reading(prefix, 0, DeleteUser("b")) + ([Advance(0, CalmEnv())]
    + (Reading(prefix, 1, Promote("b")) + Reading(prefix, 2, Demote("a"))))
  }

  function Prepared(prefix: string): System {
    var users := Installed(prefix).users;
    Idle(prefix).(threads := map[0 := At(AdminAuth, DeleteUser("b"), Approved("b", users["b"])),
                                 1 := ReadBy(prefix, Promote("b")), 2 := ReadBy(prefix, Demote("a"))])
  }

  lemma Prepares(prefix: string)
    ensures Run(prefix, Idle(prefix), Preparation(prefix)) == Prepared(prefix)
  {
    hide Step, Occur, Run, Reading;
    var e := CalmEnv();
    var del, pro, dem := DeleteUser("b"), Promote("b"), Demote("a");
    var s0 := Idle(prefix);
    var rest := Reading(prefix, 1, pro) + Reading(prefix, 2, dem);
    ReadsItsRow(prefix, s0, 0, del);
    var s1 := s0.(threads := s0.threads[0 := ReadBy(prefix, del)]);
    SnapshotStep(prefix, del);
    var approved := At(AdminAuth, del, Approved("b", Installed(prefix).users["b"]));
    Moves(prefix, s1, 0, ReadBy(prefix, del), approved);
    var s2 := s1.(threads := s1.threads[0 := approved]);
    ReadsItsRow(prefix, s2, 1, pro);
    var s3 := s2.(threads := s2.threads[1 := ReadBy(prefix, pro)]);
    ReadsItsRow(prefix, s3, 2, dem);
    RunConcat(prefix, s0, Reading(prefix, 0, del), [Advance(0, e)] + rest);
    RunConcat(prefix, s1, [Advance(0, e)], rest);
    RunOne(prefix, s1, Advance(0, e));
    RunConcat(prefix, s2, Reading(prefix, 1, pro), Reading(prefix, 2, dem));
    assert s3.threads[2 := ReadBy(prefix, dem)] == Prepared(prefix).threads;
  }

  /** Then the three write, each within its guard, and nobody is left. */
  function Writing(): seq<Event> { [Advance(1, CalmEnv())] + ([Advance(2, CalmEnv())] + [Advance(0, CalmEnv())]) }

  lemma WritesDefeatGuard(prefix: string)
    ensures ActiveAdmins(Run(prefix, Prepared(prefix), Writing()).db.users) == {}
  {
    hide Step, Apply, ApplyAll, Purge, Run;
    var e := CalmEnv();
    var s0 := Prepared(prefix);
    var w1 := SetRole("b", Administrator, 0);
    PromoteRow(prefix, {}, s0.db, s0.threads[1], e);
    ApplyOne(s0.db, w1);
    var s1 := Occur(prefix, s0, Advance(1, e));
    var u1 := map["a" := Account("a", Administrator), "b" := Account("b", Administrator)];
    assert s1.db.users == u1 by { Promoted(s0.db, w1); }
    assert ActiveAdmins(u1) == {"a", "b"};
    var w2 := SetRole("a", RegularUser, 0);
    DemoteRow(prefix, {}, s1.db, s1.threads[2], e);
    ApplyOne(s1.db, w2);
    var s2 := Occur(prefix, s1, Advance(2, e));
    var u2 := map["a" := Account("a", RegularUser), "b" := Account("b", Administrator)];
    assert s2.db.users == u2 by { Promoted(s1.db, w2); }
    DeleteRow(prefix, {}, s2.db, s2.threads[0], e);
    assert ActiveAdmins(u2) == {"b"};
    RunConcat(prefix, s0, [Advance(1, e)], [Advance(2, e)] + [Advance(0, e)]);
    RunOne(prefix, s0, Advance(1, e));
    RunConcat(prefix, s1, [Advance(2, e)], [Advance(0, e)]);
    RunOne(prefix, s1, Advance(2, e));
    RunOne(prefix, s2, Advance(0, e));
  }

  /** With a promotion in flight the guards can be defeated: from an idle server with one administrator, a run of
      a deletion, a promotion and a demotion, all guarded, leaves nobody. */
  lemma PromotionDefeatsGuard(prefix: string)
    ensures ActiveAdmins(Idle(prefix).db.users) == {"a"} && Idle(prefix).threads == map[]
    ensures ActiveAdmins(Run(prefix, Idle(prefix), Preparation(prefix) + Writing()).db.users) == {}
  {
    hide Run, Preparation, Writing, Prepared;
    Prepares(prefix);
    WritesDefeatGuard(prefix);
    RunConcat(prefix, Idle(prefix), Preparation(prefix), Writing());
  }
}
