/**
 What each request on organizations is answered, and what it leaves, when no statement
 fails: exactly, for every administrator and every state.
 */
module AnswersOrgs {
  import opened Wrappers
  import opened Auth
  import opened Requests
  import opened Runs
  import opened Schema
  import opened Serving
  import opened Terms
  import opened Text
  import opened Transactions

  // ---- Finding it ----

  /** An administrator's request goes on to the organization the selector names. */
  lemma ReachesOrg(prefix: string, db: Tables, job: Job, info: AuthInfo, id: string)
    requires OnOrg(job.req) && job.e.faults == {} && Caller(prefix, db, job, info) && Administers(db, info)
    requires UniqueOrgs(db.orgs) && NamesOrganization(db, job.req.sel, id)
    ensures Serve(prefix, db, job) == Finish(prefix, job.registry, db, At(info, job.req, Target(id)), job.e)
  {
    hide Step, Finish, StepAccounts, StepPats, StepOrgs, StepKeys, ResolveUser, ResolveOrg, UserSelector, OrgSelector,
      ValidateCredential, IsUuid;
    Admitted(prefix, db, job, info);
    CallerRows(prefix, db, job, info);
    Goes(prefix, job.registry, db, info, job.req, Enter, job.e);
    OrganizationIsResolved(db, job.req.sel, id);
  }

  /** A selector that names no organization is answered 404. */
  lemma NoOrgThere(prefix: string, db: Tables, job: Job, info: AuthInfo)
    requires OnOrg(job.req) && job.e.faults == {} && Caller(prefix, db, job, info) && Administers(db, info)
    requires forall id :: !NamesOrganization(db, job.req.sel, id)
    ensures Serve(prefix, db, job) == Outcome(db, 404, "")
  {
    hide Step, Finish, StepAccounts, StepPats, StepOrgs, StepKeys, ResolveUser, ResolveOrg, UserSelector, OrgSelector,
      ValidateCredential, NamesOrganization;
    Admitted(prefix, db, job, info);
    CallerRows(prefix, db, job, info);
    Goes(prefix, job.registry, db, info, job.req, Enter, job.e);
    NoOrganizationIsResolved(db, job.req.sel);
  }

  /** An organization deleted between its selector's resolution and the reading of its row is not found, unless the
      veto or the form of the request refuses first. */
  lemma OrgGoneMeanwhile(prefix: string, registry: set<string>, db: Tables, info: AuthInfo, r: Request, id: string, e: Env)
    requires (EditsOrg(r) || r.DeleteOrg?) && e.faults == {} && id !in db.orgs
    ensures Finish(prefix, registry, db, At(info, r, Target(id)), e)
            == Outcome(db, if r.DeleteOrg? then (if e.veto.Some? then e.veto.value else 404)
                           else if r.UpdateOrg? && ((r.newName == None && r.newUrl == None)
                                                    || (r.newName.Some? && AllSpaces(r.newName.value))) then 400
                           else 404, "")
  {
    hide Step, Finish, StepPats, StepKeys, StepAccounts, EnterAdmin, StepCreateOrg, StepMember, Check, TrimSpace, AllSpaces,
      Apply, OrgUpdate;
    if r.UpdateOrg? && r.newName.Some? { BlankMeaning(r.newName.value); }
    Goes(prefix, registry, db, info, r, Target(id), e);
  }

  // ---- Creation ----

  predicate SlugEnd(c: char) { 'a' <= c <= 'z' || '0' <= c <= '9' }

  /** Up to 128 lower-case letters, digits, hyphens and underscores, with a letter or digit at both ends. */
  predicate Slug(s: string) {
    && 0 < |s| < 129 && SlugEnd(s[0]) && SlugEnd(s[|s| - 1])
    && forall i :: 0 <= i < |s| ==> SlugEnd(s[i]) || s[i] in "-_"
  }

  lemma ValidSlugMeaning(s: string)
    ensures ValidSlug(s) <==> Slug(s)
  {
    if ValidSlug(s) {
      forall i | 0 <= i < |s| ensures SlugEnd(s[i]) || s[i] in "-_" { assert s[i] in s; }
    }
  }

  ghost predicate NameHeld(db: Tables, name: string, other: string) {
    exists o :: o in db.orgs && o != other && db.orgs[o].name == name
  }

  ghost predicate SlugHeld(db: Tables, slug: string) { exists o :: o in db.orgs && db.orgs[o].slug == slug }

  /** A name that is not blank, stored without the white space around it, and a slug, neither of them in use;
      nobody asks whether the owner exists. */
  lemma CreateOrgAnswer(prefix: string, db: Tables, job: Job, info: AuthInfo)
    requires job.req.CreateOrg? && job.e.faults == {} && Caller(prefix, db, job, info) && Administers(db, info)
    ensures var o := Serve(prefix, db, job); var r := job.req; var id := job.e.uuid; var at := Second(job.e.now);
            var name := TrimSpace(r.name);
            if AllSpaces(r.name) || !Slug(r.slug) then o == Outcome(db, 400, "")
            else if id in db.orgs then o.db == db && (o.status == 409 || o.status == 500)
            else if NameHeld(db, name, id) || SlugHeld(db, r.slug) then o == Outcome(db, 409, "")
            else o == Outcome(db.(orgs := db.orgs[id := Org(name, r.slug, r.url, r.owner, Active, at, at)]), 201, "")
  {
    hide Step, Finish, StepPats, StepKeys, StepAccounts, EnterAdmin, ValidateCredential, Check, TrimSpace, AllSpaces,
      ValidSlug, Slug, NameHeld, SlugHeld;
    var r, e := job.req, job.e;
    Admitted(prefix, db, job, info);
    CallerRows(prefix, db, job, info);
    BlankMeaning(r.name);
    ValidSlugMeaning(r.slug);
    NoEmptySlug(r.slug);
    SecondIsTruncated(e.now);
    Goes(prefix, job.registry, db, info, r, Enter, e);
    OrgVerdict(db, e.uuid, Org(TrimSpace(r.name), r.slug, r.url, r.owner, Active, Second(e.now), Second(e.now)),
               e.usernameFirst);
  }

  lemma NoEmptySlug(s: string)
    ensures Slug(s) ==> s != ""
  {
  }

  lemma OrgVerdict(db: Tables, id: string, org: Org, usernameFirst: bool)
    ensures var v := Check(db, NewOrg(id, org), usernameFirst);
            if id in db.orgs then v == DupOther || v == DupId
            else v == if NameHeld(db, org.name, id) || SlugHeld(db, org.slug) then DupOther else Accepted
  {
  }

  // ---- Changes ----

  /** What is given set, and the update time. */
  function OrgChanged(db: Tables, r: Request, id: string, now: nat): Tables
    requires EditsOrg(r) && id in db.orgs
  {
    var o := db.orgs[id].(updatedAt := Second(now));
    db.(orgs := db.orgs[id := match r
                              case BlockOrg(_) => o.(status := Blocked)
                              case UnblockOrg(_) => o.(status := Active)
                              case UpdateOrg(_, newName, newUrl) =>
                                o.(name := if newName.Some? then TrimSpace(newName.value) else o.name,
                                   url := if newUrl.Some? then newUrl.value else o.url)])
  }

  ghost function OrgAnswer(db: Tables, r: Request, id: string, now: nat): Outcome
    requires EditsOrg(r) && id in db.orgs
  {
    var changed := Outcome(OrgChanged(db, r, id, now), 200, "");
    match r
    case BlockOrg(_) => if db.orgs[id].status == Blocked then Outcome(db, 200, "") else changed
    case UnblockOrg(_) => if db.orgs[id].status == Active then Outcome(db, 200, "") else changed
    case UpdateOrg(_, newName, newUrl) =>
      if newName == None && newUrl == None then Outcome(db, 400, "")
      else if newName.Some? && AllSpaces(newName.value) then Outcome(db, 400, "")
      else if newName.Some? && NameHeld(db, TrimSpace(newName.value), id) then Outcome(db, 409, "")
      else changed
  }

  /** Each change sets what it is given and the update time; blocking a blocked organization changes nothing. */
  lemma EditOrgAnswer(prefix: string, db: Tables, job: Job, info: AuthInfo, id: string)
    requires EditsOrg(job.req) && job.e.faults == {} && Caller(prefix, db, job, info) && Administers(db, info)
    requires UniqueOrgs(db.orgs) && NamesOrganization(db, job.req.sel, id)
    ensures Serve(prefix, db, job) == OrgAnswer(db, job.req, id, job.e.now)
  {
    hide Step, Finish, StepPats, StepKeys, StepAccounts, EnterAdmin, ValidateCredential, Check, TrimSpace, AllSpaces,
      IsUuid, UniqueOrgs, NameHeld, OrgUpdate, Apply, OrgChanged;
    var r, e := job.req, job.e;
    ReachesOrg(prefix, db, job, info, id);
    if r.UpdateOrg? && r.newName.Some? { BlankMeaning(r.newName.value); }
    Goes(prefix, job.registry, db, info, r, Target(id), e);
    OrgWritten(prefix, job.registry, db, info, r, id, e);
  }

  /** The last statements, whatever has become of the row since it was found. */
  lemma OrgWritten(prefix: string, registry: set<string>, db: Tables, info: AuthInfo, r: Request, id: string, e: Env)
    requires EditsOrg(r) && e.faults == {}
    ensures Finish(prefix, registry, db, At(info, r, Found(id)), e)
            == if id !in db.orgs then Outcome(db, 500, "")
               else if r.UpdateOrg? && r.newName.Some? && NameHeld(db, TrimSpace(r.newName.value), id) then
                 Outcome(db, 409, "")
               else Outcome(OrgChanged(db, r, id, e.now), 200, "")
  {
    hide Step, Finish, StepPats, StepKeys, StepAccounts, EnterAdmin, Check, TrimSpace, NameHeld, OrgUpdate, Apply,
      OrgChanged, StepCreateOrg, StepDeleteOrg, StepMember;
    Goes(prefix, registry, db, info, r, Found(id), e);
    OrgRow(db, r, id, e.now, e.usernameFirst);
    Goes(prefix, registry, Apply(db, OrgUpdate(r, id, Truncated(e.now))), info, r, Refetching(id), e);
  }

  lemma OrgRow(db: Tables, r: Request, id: string, now: nat, usernameFirst: bool)
    requires EditsOrg(r)
    ensures var w := OrgUpdate(r, id, Truncated(now)); var v := Check(db, w, usernameFirst);
            && Apply(db, w) == (if id in db.orgs then OrgChanged(db, r, id, now) else db)
            && (id in db.orgs ==> id in OrgChanged(db, r, id, now).orgs)
            && v == if id in db.orgs && r.UpdateOrg? && r.newName.Some? && NameHeld(db, TrimSpace(r.newName.value), id) then
                      DupOther
                    else Accepted
  {
    hide TrimSpace;
    SecondIsTruncated(now);
  }

  // ---- Deletion ----

  /** The organization and its memberships, and nothing else. */
  function WithoutOrg(db: Tables, id: string): Tables {
    db.(orgs := map o | o in db.orgs && o != id :: db.orgs[o],
        members := map m | m in db.members && m.0 != id :: db.members[m])
  }

  lemma DeleteOrgAnswer(prefix: string, db: Tables, job: Job, info: AuthInfo, id: string)
    requires job.req.DeleteOrg? && job.e.faults == {} && Caller(prefix, db, job, info) && Administers(db, info)
    requires UniqueOrgs(db.orgs) && NamesOrganization(db, job.req.sel, id)
    ensures var e := job.e;
            Serve(prefix, db, job)
            == if e.veto.Some? then Outcome(db, e.veto.value, "")
               else match e.hook(WithoutOrg(db, id), id)
                    case HookOk(after) => Outcome(after, 204, "")
                    case HookFailed(_, status) => Outcome(db, if status.Some? then status.value else 500, "")
  {
    hide Step, Finish, StepPats, StepKeys, StepAccounts, EnterAdmin, ValidateCredential, IsUuid, UniqueOrgs, Apply,
      WithoutOrg;
    var e := job.e;
    ReachesOrg(prefix, db, job, info, id);
    Goes(prefix, job.registry, db, info, job.req, Target(id), e);
    OrgDropped(db, id, e.hook);
  }

  lemma OrgDropped(db: Tables, id: string, hook: Hook)
    ensures Apply(db, DropOrg(id)) == WithoutOrg(db, id)
    ensures hook(WithoutOrg(db, id), id).HookOk? ==>
              ApplyAll(db, [DropOrg(id), RunHook(hook, id)]) == hook(WithoutOrg(db, id), id).db
  {
    assert db.orgs - {id} == WithoutOrg(db, id).orgs;
    assert MembershipsOutside(db.members, id) == WithoutOrg(db, id).members;
    assert [DropOrg(id), RunHook(hook, id)] == [DropOrg(id)] + [RunHook(hook, id)];
    ApplyConcat(db, [DropOrg(id)], [RunHook(hook, id)]);
    ApplyOne(db, DropOrg(id));
    ApplyOne(Apply(db, DropOrg(id)), RunHook(hook, id));
  }

  // ---- Members ----

  /** Adding a member twice and removing nobody differ: the first is a success, the second is not found. */
  lemma MemberAnswer(prefix: string, db: Tables, job: Job, info: AuthInfo, id: string, user: string)
    requires job.req.AddMember? || job.req.RemoveMember?
    requires job.e.faults == {} && Caller(prefix, db, job, info) && Administers(db, info)
    requires UniqueOrgs(db.orgs) && NamesOrganization(db, job.req.sel, id)
    requires UniqueUsers(db.users) && Names(db, job.req.userSel, user)
    ensures var there := (id, user) in db.members;
            Serve(prefix, db, job)
            == if job.req.AddMember? then
                 Outcome(if there then db else db.(members := db.members[(id, user) := Second(job.e.now)]), 204, "")
               else if there then Outcome(db.(members := db.members - {(id, user)}), 204, "")
               else Outcome(db, 404, "")
  {
    hide Step, Finish, StepPats, StepKeys, StepAccounts, EnterAdmin, ValidateCredential, IsUuid, UniqueOrgs, UniqueUsers,
      ResolveUser, UserSelector, StepCreateOrg, StepDeleteOrg, StepOrg, Check, Apply;
    var r, e := job.req, job.e;
    ReachesOrg(prefix, db, job, info, id);
    NamedIsResolved(db, r.userSel, user);
    Goes(prefix, job.registry, db, info, r, Target(id), e);
    MemberWritten(prefix, job.registry, db, info, r, id, user, e);
  }

  /** The last statement, whatever has become of both rows since they were found. */
  lemma MemberWritten(prefix: string, registry: set<string>, db: Tables, info: AuthInfo, r: Request, id: string,
                      user: string, e: Env)
    requires (r.AddMember? || r.RemoveMember?) && e.faults == {}
    ensures var there := (id, user) in db.members;
            Finish(prefix, registry, db, At(info, r, Pair(id, user)), e)
            == if r.RemoveMember? then
                 if there then Outcome(db.(members := db.members - {(id, user)}), 204, "") else Outcome(db, 404, "")
               else if there then Outcome(db, 204, "")
               else if id in db.orgs && user in db.users then
                 Outcome(db.(members := db.members[(id, user) := Second(e.now)]), 204, "")
               else Outcome(db, 500, "")
  {
    hide Step, Finish, StepPats, StepKeys, StepAccounts, EnterAdmin, ResolveUser, UserSelector, Check, Apply;
    SecondIsTruncated(e.now);
    Goes(prefix, registry, db, info, r, Pair(id, user), e);
    MemberRow(db, id, user, e.now, e.usernameFirst);
  }

  lemma MemberRow(db: Tables, id: string, user: string, now: nat, usernameFirst: bool)
    ensures var w := NewMember(id, user, Truncated(now));
            && Check(db, w, usernameFirst) == (if (id, user) in db.members then DupId
                                               else if id in db.orgs && user in db.users then Accepted else ForeignKey)
            && Apply(db, w) == db.(members := db.members[(id, user) := Truncated(now)])
            && Apply(db, DropMember(id, user)) == db.(members := db.members - {(id, user)})
  {
  }

  /** A member that is nobody is answered 404. */
  lemma NoMemberThere(prefix: string, db: Tables, job: Job, info: AuthInfo, id: string)
    requires job.req.AddMember? || job.req.RemoveMember?
    requires job.e.faults == {} && Caller(prefix, db, job, info) && Administers(db, info)
    requires UniqueOrgs(db.orgs) && NamesOrganization(db, job.req.sel, id)
    requires forall user :: !Names(db, job.req.userSel, user)
    ensures Serve(prefix, db, job) == Outcome(db, 404, "")
  {
    hide Step, Finish, StepPats, StepKeys, StepAccounts, EnterAdmin, ValidateCredential, IsUuid, UniqueOrgs, Names,
      ResolveUser, UserSelector;
    ReachesOrg(prefix, db, job, info, id);
    NobodyIsResolved(db, job.req.userSel);
    Goes(prefix, job.registry, db, info, job.req, Target(id), job.e);
  }
}
