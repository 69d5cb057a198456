/**
 The organization and membership handlers.
 */
module OrgHandlers {
  import opened Wrappers
  import opened Auth
  import opened Database
  import opened Handlers
  import opened Requests
  import opened Runs
  import opened Schema
  import opened Text
  import opened Transactions

  class OrgApi {
    const api: Api

    constructor (api: Api)
      ensures this.api == api
    {
      this.api := api;
    }

    method ResolveOrgId(sel: string) returns (found: Option<string>)
      requires UniqueOrgs(api.store.orgs)
      ensures found == ResolveOrg(api.store.Contents(), OrgSelector(sel))
    {
      hide IsUuid;
      ghost var db := api.store.Contents();
      var orgs := api.store.orgs;
      var s := OrgSelector(sel);
      if s.ById? {
        assert SelectsOrg(db, s, s.text) <==> s.text in orgs;
        return if s.text in orgs then Some(s.text) else None;
      }
      if id :| id in orgs && orgs[id].slug == s.text {
        assert SelectsOrg(db, s, id);
        found := Some(id);
      } else {
        assert forall id :: !SelectsOrg(db, s, id);
        found := None;
      }
    }

    /** Authentication, RequireAdmin, then the target organization. */
    method AdminOrg(token: string, ghost req: Request, sel: string, e: Env) returns (info: AuthInfo, g: Gate<string>)
      requires OnOrg(req) && req.sel == sel && UniqueOrgs(api.store.orgs)
      ensures match g
              case Deny(status) => api.Ending(Start(token, req), e) == Outcome(api.store.Contents(), status, "")
              case Pass(id) => api.Ending(Start(token, req), e) == api.Ending(At(info, req, Target(id)), e)
    {
      hide Finish, Step, StepAccounts, StepPats, StepOrgs, StepKeys, UserSelector, ResolveUser, OrgSelector, ResolveOrg,
        UniqueOrgs;
      info := NoAuth;
      var auth := api.Authenticate(token, req, e);
      if auth.Deny? {
        return info, Deny(auth.status);
      }
      info := auth.value;
      api.Stepped(info, req, Enter, e);
      if !IsAdmin(info) {
        return info, Deny(403);
      }
      if Resolve in e.faults {
        return info, Deny(INTERNAL);
      }
      var found := ResolveOrgId(sel);
      return info, if found == None then Deny(404) else Pass(found.value);
    }

    method CreateOrg(token: string, name: string, slug: string, url: string, owner: Option<string>, e: Env)
      returns (status: nat)
      modifies api.store
      ensures Serve(api.prefix, old(api.store.Contents()),
                    Job(token, Request.CreateOrg(name, slug, url, owner), api.registry.perms, e))
              == Outcome(api.store.Contents(), status, "")
    {
      hide Finish, Step, StepAccounts, StepPats, StepKeys, EnterAdmin, Apply, Check, ValidSlug, TrimSpace,
        StepDeleteOrg, StepOrg, StepMember;
      ghost var req := Request.CreateOrg(name, slug, url, owner);
      var auth := api.Authenticate(token, req, e);
      if auth.Deny? {
        return auth.status;
      }
      api.Stepped(auth.value, req, Enter, e);
      if !IsAdmin(auth.value) {
        return 403;
      }
      if TrimSpace(name) == "" || slug == "" || !ValidSlug(slug) {
        return 400;
      }
      if Insert in e.faults {
        return INTERNAL;
      }
      var at := Truncated(e.now);
      var v := api.store.Exec(NewOrg(e.uuid, Org(TrimSpace(name), slug, url, owner, Active, at, at)), e.usernameFirst);
      return if v == Accepted then 201 else if v == DupOther then CONFLICT else INTERNAL;
    }

    /** The update of updateOrg, blockOrg and unblockOrg and the row read back. */
    method WriteOrg(info: AuthInfo, ghost req: Request, id: string, w: Write, e: Env) returns (status: nat)
      requires EditsOrg(req) && w == OrgUpdate(req, id, Truncated(e.now))
      modifies api.store
      ensures old(api.Ending(At(info, req, Found(id)), e)) == Outcome(api.store.Contents(), status, "")
    {
      hide Finish, Step, StepAccounts, StepPats, StepKeys, EnterAdmin, Apply, Check, TrimSpace,
        StepCreateOrg, StepDeleteOrg, StepMember;
      api.Stepped(info, req, Found(id), e);
      if Update in e.faults {
        return INTERNAL;
      }
      var v := api.store.Exec(w, e.usernameFirst);
      if v != Accepted {
        return CONFLICT;
      }
      api.Stepped(info, req, Refetching(id), e);
      return if Refetch in e.faults || id !in api.store.orgs then INTERNAL else 200;
    }

    /** Validation and the current row; passes on what is still to be written. */
    method CheckEdit(info: AuthInfo, req: Request, id: string, e: Env) returns (g: Gate<string>)
      requires EditsOrg(req)
      ensures match g
              case Deny(status) => api.Ending(At(info, req, Target(id)), e) == Outcome(api.store.Contents(), status, "")
              case Pass(same) =>
                same == id && api.Ending(At(info, req, Target(id)), e) == api.Ending(At(info, req, Found(id)), e)
    {
      hide Finish, Step, StepAccounts, StepPats, StepKeys, EnterAdmin, Apply, Check, TrimSpace, OrgSelector, ResolveOrg,
        OrgUpdate, UniqueOrgs, StepCreateOrg, StepDeleteOrg, StepMember;
      api.Stepped(info, req, Target(id), e);
      if req.UpdateOrg? {
        if req.newName == None && req.newUrl == None {
          return Deny(400);
        }
        if req.newName.Some? && TrimSpace(req.newName.value) == "" {
          return Deny(400);
        }
      }
      if Fetch in e.faults {
        return Deny(INTERNAL);
      }
      if id !in api.store.orgs {
        return Deny(404);
      }
      var current := api.store.orgs[id].status;
      if (req.BlockOrg? && current == Blocked) || (req.UnblockOrg? && current == Active) {
        return Deny(200);
      }
      return Pass(id);
    }

    method EditOrg(token: string, req: Request, e: Env) returns (status: nat)
      requires EditsOrg(req) && UniqueOrgs(api.store.orgs)
      modifies api.store
      ensures Serve(api.prefix, old(api.store.Contents()), Job(token, req, api.registry.perms, e))
              == Outcome(api.store.Contents(), status, "")
    {
      hide Finish, Step, OrgUpdate, UniqueOrgs;
      var info, g := AdminOrg(token, req, req.sel, e);
      if g.Deny? {
        return g.status;
      }
      g := CheckEdit(info, req, g.value, e);
      if g.Deny? {
        return g.status;
      }
      status := WriteOrg(info, req, g.value, OrgUpdate(req, g.value, Truncated(e.now)), e);
    }

    method DeleteOrg(token: string, sel: string, e: Env) returns (status: nat)
      requires UniqueOrgs(api.store.orgs)
      modifies api.store
      ensures Serve(api.prefix, old(api.store.Contents()), Job(token, Request.DeleteOrg(sel), api.registry.perms, e))
              == Outcome(api.store.Contents(), status, "")
    {
      hide Finish, Step, UniqueOrgs;
      ghost var req := Request.DeleteOrg(sel);
      var info, g := AdminOrg(token, req, sel, e);
      if g.Deny? {
        return g.status;
      }
      status := DropOrganization(info, req, g.value, e);
    }

    /** The veto and the transaction; every error restores the tables. */
    method DropOrganization(info: AuthInfo, ghost req: Request, id: string, e: Env) returns (status: nat)
      requires req.DeleteOrg?
      modifies api.store
      ensures old(api.Ending(At(info, req, Target(id)), e)) == Outcome(api.store.Contents(), status, "")
    {
      hide Finish, Step, StepAccounts, StepPats, StepKeys, EnterAdmin, Apply, ApplyAll, Check, StepCreateOrg, StepOrg,
        StepMember;
      api.Stepped(info, req, Target(id), e);
      if e.veto.Some? {
        return e.veto.value;
      }
      if Begin in e.faults {
        return INTERNAL;
      }
      var saved := api.store.Contents();
      if DropRow in e.faults {
        return INTERNAL;
      }
      if id !in api.store.orgs {
        return 404;
      }
      api.store.Amend(DropOrg(id));
      var answer := e.hook(api.store.Contents(), id);
      if answer.HookFailed? {
        api.store.Restore(saved);
        return if answer.status.Some? then answer.status.value else INTERNAL;
      }
      ghost var mid := api.store.Contents();
      Hooked(mid, e.hook, id, e.usernameFirst);
      var _ := api.store.Exec(RunHook(e.hook, id), e.usernameFirst);
      if Commit in e.faults {
        api.store.Restore(saved);
        return INTERNAL;
      }
      ApplyOne(saved, DropOrg(id));
      ApplyOne(mid, RunHook(e.hook, id));
      ApplyConcat(saved, [DropOrg(id)], [RunHook(e.hook, id)]);
      assert [DropOrg(id)] + [RunHook(e.hook, id)] == [DropOrg(id), RunHook(e.hook, id)];
      return 204;
    }

    /** Organization first, then the user. */
    method MemberTarget(token: string, ghost req: Request, sel: string, userSel: string, e: Env)
      returns (info: AuthInfo, g: Gate<(string, string)>)
      requires (req.AddMember? || req.RemoveMember?) && req.sel == sel && req.userSel == userSel
      requires UniqueOrgs(api.store.orgs) && UniqueUsers(api.store.users)
      ensures match g
              case Deny(status) => api.Ending(Start(token, req), e) == Outcome(api.store.Contents(), status, "")
              case Pass((orgId, id)) => api.Ending(Start(token, req), e) == api.Ending(At(info, req, Pair(orgId, id)), e)
    {
      hide Finish, Step, UniqueOrgs, UniqueUsers;
      var org;
      info, org := AdminOrg(token, req, sel, e);
      if org.Deny? {
        return info, Deny(org.status);
      }
      g := SecondTarget(info, req, org.value, userSel, e);
    }

    method SecondTarget(info: AuthInfo, ghost req: Request, orgId: string, userSel: string, e: Env)
      returns (g: Gate<(string, string)>)
      requires (req.AddMember? || req.RemoveMember?) && req.userSel == userSel && UniqueUsers(api.store.users)
      ensures match g
              case Deny(status) => api.Ending(At(info, req, Target(orgId)), e) == Outcome(api.store.Contents(), status, "")
              case Pass((org, id)) =>
                api.Ending(At(info, req, Target(orgId)), e) == api.Ending(At(info, req, Pair(org, id)), e)
    {
      hide Finish, Step, StepAccounts, StepPats, StepKeys, EnterAdmin, UserSelector, ResolveUser, Check, UniqueUsers,
        StepCreateOrg, StepDeleteOrg, StepOrg;
      api.Stepped(info, req, Target(orgId), e);
      if ResolveSecond in e.faults {
        return Deny(INTERNAL);
      }
      var found := api.ResolveUserId(userSel);
      return if found == None then Deny(404) else Pass((orgId, found.value));
    }

    method AddOrgMember(token: string, sel: string, userSel: string, e: Env) returns (status: nat)
      requires UniqueOrgs(api.store.orgs) && UniqueUsers(api.store.users)
      modifies api.store
      ensures Serve(api.prefix, old(api.store.Contents()), Job(token, AddMember(sel, userSel), api.registry.perms, e))
              == Outcome(api.store.Contents(), status, "")
    {
      hide Finish, Step, StepAccounts, StepPats, StepKeys, EnterAdmin, Check, Apply, UniqueOrgs, UniqueUsers, StepCreateOrg,
        StepDeleteOrg, StepOrg;
      ghost var req := AddMember(sel, userSel);
      var info, g := MemberTarget(token, req, sel, userSel, e);
      if g.Deny? {
        return g.status;
      }
      var (orgId, id) := g.value;
      api.Stepped(info, req, Pair(orgId, id), e);
      if Update in e.faults {
        return INTERNAL;
      }
      var v := api.store.Exec(NewMember(orgId, id, Truncated(e.now)), e.usernameFirst);
      return if v == Accepted || v == DupId then 204 else INTERNAL;
    }

    method RemoveOrgMember(token: string, sel: string, userSel: string, e: Env) returns (status: nat)
      requires UniqueOrgs(api.store.orgs) && UniqueUsers(api.store.users)
      modifies api.store
      ensures Serve(api.prefix, old(api.store.Contents()), Job(token, RemoveMember(sel, userSel), api.registry.perms, e))
              == Outcome(api.store.Contents(), status, "")
    {
      hide Finish, Step, StepAccounts, StepPats, StepKeys, EnterAdmin, Check, Apply, UniqueOrgs, UniqueUsers, StepCreateOrg,
        StepDeleteOrg, StepOrg;
      ghost var req := RemoveMember(sel, userSel);
      var info, g := MemberTarget(token, req, sel, userSel, e);
      if g.Deny? {
        return g.status;
      }
      var (orgId, id) := g.value;
      api.Stepped(info, req, Pair(orgId, id), e);
      if Update in e.faults {
        return INTERNAL;
      }
      if (orgId, id) !in api.store.members {
        return 404;
      }
      assert api.Ending(At(info, req, Pair(orgId, id)), e)
             == Outcome(Apply(api.store.Contents(), DropMember(orgId, id)), 204, "");
      api.store.Amend(DropMember(orgId, id));
      return 204;
    }
  }
}
