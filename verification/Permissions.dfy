/**
 Permission strings: the registry of known resource:action pairs, and the list
 operations behind adding to and removing from a token.
 */
module Permissions {
  import opened Wrappers

  // ---- Form ----

  function Count(s: string, c: char): nat {
    if s == "" then 0 else (if s[0] == c then 1 else 0) + Count(s[1..], c)
  }

  predicate WellFormed(p: string) { Count(p, ':') == 1 }

  /** strings.SplitN(p, ":", 2) on a string with a colon. */
  function SplitColon(p: string): (r: (string, string))
    requires Count(p, ':') > 0
    ensures p == r.0 + ":" + r.1 && ':' !in r.0
  {
    if p[0] == ':' then ("", p[1..])
    else
      var (a, b) := SplitColon(p[1..]);
      ([p[0]] + a, b)
  }

  predicate ValidIdentifier(s: string) {
    s != "" && forall c :: c in s ==> 'a' <= c <= 'z' || '0' <= c <= '9' || c == '_'
  }

  lemma {:induction false} CountConcat(a: string, b: string, c: char)
    ensures Count(a + b, c) == Count(a, c) + Count(b, c)
  {
    if a == "" {
      assert a + b == b;
    } else {
      CountConcat(a[1..], b, c);
      assert (a + b)[1..] == a[1..] + b;
    }
  }

  lemma {:induction false} CountAbsent(a: string, c: char)
    requires c !in a
    ensures Count(a, c) == 0
  {
    if a != "" { CountAbsent(a[1..], c); }
  }

  // ---- The registry ----

  const BUILTINS: set<string> := {"users:read", "orgs:read", "orgs:write", "keys:read", "keys:manage",
                                  "tokens:read", "tokens:manage", "tokens:write"}

  /** The registry after Register(resource, action); None when it refuses. */
  function Registered(perms: set<string>, resource: string, action: string): Option<set<string>> {
    if !ValidIdentifier(resource) || !ValidIdentifier(action) || resource + ":" + action in perms then None
    else Some(perms + {resource + ":" + action})
  }

  /** Registration never withdraws a permission and admits only resource:action pairs. */
  lemma RegisteredGrows(perms: set<string>, resource: string, action: string)
    requires forall p :: p in perms ==> WellFormed(p)
    requires Registered(perms, resource, action).Some?
    ensures var after := Registered(perms, resource, action).value;
            perms < after && forall p :: p in after ==> WellFormed(p)
  {
    CountAbsent(resource, ':');
    CountAbsent(action, ':');
    CountConcat(resource, ":", ':');
    CountConcat(resource + ":", action, ':');
  }

  predicate WordLetter(c: char) { c in "abcdefghijklmnopqrstuvwxyz0123456789_" }

  /** Lower-case letters, digits and underscores. */
  predicate Identifier(s: string) { 0 < |s| && forall i :: 0 <= i < |s| ==> WordLetter(s[i]) }

  lemma WordLetters(c: char)
    ensures WordLetter(c) <==> 'a' <= c <= 'z' || '0' <= c <= '9' || c == '_'
  {
  }

  lemma IdentifierMeaning(s: string)
    ensures ValidIdentifier(s) <==> Identifier(s)
    ensures Identifier(s) ==> ':' !in s
  {
    hide WordLetter;
    forall c ensures WordLetter(c) <==> 'a' <= c <= 'z' || '0' <= c <= '9' || c == '_' { WordLetters(c); }
    assert !WordLetter(':');
    if Identifier(s) {
      forall c | c in s ensures WordLetter(c) { var i :| 0 <= i < |s| && s[i] == c; }
    }
    forall i | 0 <= i < |s| && ValidIdentifier(s) ensures WordLetter(s[i]) { assert s[i] in s; }
  }

  /** Registration accepts exactly a new pair of identifiers. */
  lemma RegisteredExactly(perms: set<string>, resource: string, action: string)
    ensures var p := resource + ":" + action;
            Registered(perms, resource, action)
            == if Identifier(resource) && Identifier(action) && p !in perms then Some(perms + {p}) else None
  {
    hide ValidIdentifier, Identifier;
    IdentifierMeaning(resource);
    IdentifierMeaning(action);
  }

  /** And the pair can be read off what it adds. */
  lemma PairReadsBack(resource: string, action: string)
    requires Identifier(resource)
    ensures Count(resource + ":" + action, ':') > 0 && SplitColon(resource + ":" + action) == (resource, action)
  {
    IdentifierMeaning(resource);
    SplitAtFirst(resource, action);
  }

  lemma {:induction false} SplitAtFirst(a: string, b: string)
    requires ':' !in a
    ensures Count(a + ":" + b, ':') > 0 && SplitColon(a + ":" + b) == (a, b)
  {
    var s := a + ":" + b;
    if a != "" {
      SplitAtFirst(a[1..], b);
      assert s[1..] == a[1..] + ":" + b && s[0] == a[0];
      assert a == [a[0]] + a[1..];
    }
  }

  class PermissionRegistry {
    var perms: set<string>

    constructor ()
      ensures perms == BUILTINS
    {
      perms := BUILTINS;
    }

    method Register(resource: string, action: string) returns (ok: bool)
      modifies this
      ensures ok <==> Registered(old(perms), resource, action).Some?
      ensures perms == if ok then Registered(old(perms), resource, action).value else old(perms)
    {
      if !ValidIdentifier(resource) {
        return false;
      }
      if !ValidIdentifier(action) {
        return false;
      }
      var key := resource + ":" + action;
      if key in perms {
        return false;
      }
      perms := perms + {key};
      return true;
    }

    predicate IsValid(resource: string, action: string)
      reads this
    {
      resource + ":" + action in perms
    }

    /** The validation loop of the permission handlers. */
    method ValidatePermissions(list: seq<string>, ignoreUnknown: bool) returns (ok: bool)
      ensures ok <==> Acceptable(list, ignoreUnknown, perms)
    {
      var k := 0;
      while k < |list|
        invariant 0 <= k <= |list|
        invariant Acceptable(list[..k], ignoreUnknown, perms)
      {
        var p := list[k];
        assert p in list;
        if Count(p, ':') != 1 {
          return false;
        }
        if !ignoreUnknown {
          var (resource, action) := SplitColon(p);
          if !IsValid(resource, action) {
            return false;
          }
        }
        assert list[..k + 1] == list[..k] + [p];
        k := k + 1;
      }
      assert list[..k] == list;
      return true;
    }
  }

  /** What validatePermissions accepts: well-formed entries, and known ones unless told otherwise. */
  predicate Acceptable(list: seq<string>, ignoreUnknown: bool, registry: set<string>) {
    forall p :: p in list ==> WellFormed(p) && (ignoreUnknown || p in registry)
  }

  // ---- Granting ----

  /** What a token caller may ask for: what the target has already, or what the caller holds. */
  predicate MayGrant(held: seq<string>, existing: seq<string>, requested: seq<string>) {
    forall p :: p in requested ==> p in existing || p in held
  }

  method CheckPrivilegeEscalation(held: seq<string>, existing: seq<string>, requested: seq<string>)
    returns (ok: bool)
    ensures ok <==> MayGrant(held, existing, requested)
  {
    var callerPermSet := ToSet(held);
    var existingPermSet := ToSet(existing);
    var k := 0;
    while k < |requested|
      invariant 0 <= k <= |requested|
      invariant MayGrant(held, existing, requested[..k])
    {
      var p := requested[k];
      assert p in requested;
      if p !in existingPermSet && p !in callerPermSet {
        return false;
      }
      assert requested[..k + 1] == requested[..k] + [p];
      k := k + 1;
    }
    assert requested[..k] == requested;
    return true;
  }

  method ToSet(list: seq<string>) returns (s: set<string>)
    ensures forall p :: p in s <==> p in list
  {
    s := {};
    var k := 0;
    while k < |list|
      invariant 0 <= k <= |list|
      invariant forall p :: p in s <==> p in list[..k]
    {
      s := s + {list[k]};
      assert list[..k + 1] == list[..k] + [list[k]];
      k := k + 1;
    }
    assert list[..k] == list;
  }

  // ---- Adding and removing ----

  /** Append each requested permission that is not there yet. */
  function Merge(existing: seq<string>, requested: seq<string>): seq<string>
    decreases |requested|
  {
    if requested == [] then existing
    else Merge(if requested[0] in existing then existing else existing + [requested[0]], requested[1..])
  }

  /** Keep the permissions that are not to be removed, in order. */
  function Remaining(existing: seq<string>, removed: seq<string>): seq<string> {
    if existing == [] then []
    else (if existing[0] in removed then [] else [existing[0]]) + Remaining(existing[1..], removed)
  }

  method AddPermissions(existing: seq<string>, requested: seq<string>) returns (merged: seq<string>)
    ensures merged == Merge(existing, requested)
  {
    var existingSet := ToSet(existing);
    merged := existing;
    var k := 0;
    while k < |requested|
      invariant 0 <= k <= |requested|
      invariant forall p :: p in existingSet <==> p in merged
      invariant Merge(merged, requested[k..]) == Merge(existing, requested)
    {
      var p := requested[k];
      assert requested[k..][1..] == requested[k + 1..];
      if p !in existingSet {
        merged := merged + [p];
        existingSet := existingSet + {p};
      }
      k := k + 1;
    }
  }

  method RemovePermissions(existing: seq<string>, removed: seq<string>) returns (remaining: seq<string>)
    ensures remaining == Remaining(existing, removed)
  {
    var removeSet := ToSet(removed);
    remaining := [];
    var k := 0;
    while k < |existing|
      invariant 0 <= k <= |existing|
      invariant remaining + Remaining(existing[k..], removed) == Remaining(existing, removed)
    {
      RemainingFrom(existing, k, removed);
      ghost var before, rest := remaining, Remaining(existing[k + 1..], removed);
      hide Remaining;
      if existing[k] !in removeSet {
        assert before + ([existing[k]] + rest) == (before + [existing[k]]) + rest;
        remaining := remaining + [existing[k]];
      } else {
        assert [] + rest == rest;
      }
      k := k + 1;
    }
    assert remaining + [] == remaining;
  }

  /** One turn of the filter. */
  lemma RemainingFrom(existing: seq<string>, k: nat, removed: seq<string>)
    requires k < |existing|
    ensures Remaining(existing[k..], removed)
            == (if existing[k] in removed then [] else [existing[k]]) + Remaining(existing[k + 1..], removed)
  {
    assert existing[k..][1..] == existing[k + 1..];
  }

  predicate NoDuplicates(list: seq<string>) {
    forall i, j :: 0 <= i < j < |list| ==> list[i] != list[j]
  }

  predicate Disjoint(a: seq<string>, b: seq<string>) {
    forall p :: p in a ==> p !in b
  }

  /** Adding keeps the old list as a prefix and appends a duplicate-free suffix disjoint from it, whose
      members are exactly the requested permissions that were missing. */
  lemma {:induction false} MergeMeaning(existing: seq<string>, requested: seq<string>)
    ensures var m := Merge(existing, requested);
            && existing <= m
            && NoDuplicates(m[|existing|..]) && Disjoint(m[|existing|..], existing)
            && (forall p :: p in m <==> p in existing || p in requested)
    decreases |requested|
  {
    if requested != [] {
      var r := requested[0];
      var next := if r in existing then existing else existing + [r];
      MergeMeaning(next, requested[1..]);
      var m := Merge(existing, requested);
      if r !in existing {
        var tail := m[|next|..];
        assert m[|existing|..] == [r] + tail;
        assert existing == next[..|existing|];
        forall p | p in [r] + tail ensures p !in existing {
          if p != r { assert p in tail; assert p !in next; }
        }
        assert forall i | 0 <= i < |tail| :: tail[i] in tail && tail[i] != r;
      }
      assert forall p :: p in requested <==> p == r || p in requested[1..];
    }
  }

  /** Of the first n requested permissions those that are neither there already nor requested earlier. */
  function Newcomers(existing: seq<string>, requested: seq<string>, n: nat): seq<string>
    requires n <= |requested|
  {
    if n == 0 then []
    else
      var r := requested[n - 1];
      Newcomers(existing, requested, n - 1)
      + if r in existing || r in requested[..n - 1] then [] else [r]
  }

  /** What merging appends, and in which order. */
  lemma MergeIsNewcomers(existing: seq<string>, requested: seq<string>)
    ensures Merge(existing, requested) == existing + Newcomers(existing, requested, |requested|)
  {
    MergesRest(existing, requested, 0);
    assert existing + Newcomers(existing, requested, 0) == existing;
    assert requested[0..] == requested;
  }

  lemma {:induction false} MergesRest(existing: seq<string>, requested: seq<string>, n: nat)
    requires n <= |requested|
    ensures Merge(existing + Newcomers(existing, requested, n), requested[n..])
            == existing + Newcomers(existing, requested, |requested|)
    decreases |requested| - n
  {
    if n < |requested| {
      var r, news := requested[n], Newcomers(existing, requested, n);
      NewcomersMembers(existing, requested, n);
      MergesRest(existing, requested, n + 1);
      assert requested[n..][1..] == requested[n + 1..] && requested[n..][0] == r;
      assert (existing + news) + [r] == existing + (news + [r]);
      assert existing + (news + []) == existing + news;
    }
  }

  lemma {:induction false} NewcomersMembers(existing: seq<string>, requested: seq<string>, n: nat)
    requires n <= |requested|
    ensures forall p :: p in Newcomers(existing, requested, n) <==> p in requested[..n] && p !in existing
  {
    if n > 0 {
      NewcomersMembers(existing, requested, n - 1);
      assert requested[..n] == requested[..n - 1] + [requested[n - 1]];
    }
  }

  /** Merging what is already there changes nothing; hence adding twice is adding once. */
  lemma {:induction false} MergeAbsorbs(existing: seq<string>, requested: seq<string>)
    requires forall p :: p in requested ==> p in existing
    ensures Merge(existing, requested) == existing
    decreases |requested|
  {
    if requested != [] { MergeAbsorbs(existing, requested[1..]); }
  }

  lemma MergeIdempotent(existing: seq<string>, requested: seq<string>)
    ensures Merge(Merge(existing, requested), requested) == Merge(existing, requested)
  {
    MergeMeaning(existing, requested);
    MergeAbsorbs(Merge(existing, requested), requested);
  }

  /** Removal drops every listed permission, keeps every other one as often as it was there,
      and keeps their order: what remains of a concatenation is the concatenation of what remains. */
  lemma {:induction false} RemainingMeaning(existing: seq<string>, removed: seq<string>)
    ensures forall p :: multiset(Remaining(existing, removed))[p]
                        == if p in removed then 0 else multiset(existing)[p]
  {
    if existing != [] {
      RemainingMeaning(existing[1..], removed);
      assert existing == [existing[0]] + existing[1..];
    }
  }

  lemma {:induction false} RemainingConcat(a: seq<string>, b: seq<string>, removed: seq<string>)
    ensures Remaining(a + b, removed) == Remaining(a, removed) + Remaining(b, removed)
  {
    if a == [] {
      assert a + b == b;
    } else {
      RemainingConcat(a[1..], b, removed);
      assert (a + b)[0] == a[0] && (a + b)[1..] == a[1..] + b;
      Associates(if a[0] in removed then [] else [a[0]], Remaining(a[1..], removed), Remaining(b, removed));
    }
  }

  lemma Associates(a: seq<string>, b: seq<string>, c: seq<string>)
    ensures a + (b + c) == (a + b) + c
  {
  }

  lemma {:induction false} RemainingMembers(existing: seq<string>, removed: seq<string>)
    ensures forall p :: p in Remaining(existing, removed) <==> p in existing && p !in removed
  {
    RemainingMeaning(existing, removed);
    forall p ensures p in Remaining(existing, removed) <==> p in existing && p !in removed {
      assert p in Remaining(existing, removed) <==> multiset(Remaining(existing, removed))[p] > 0;
      assert p in existing <==> multiset(existing)[p] > 0;
    }
  }

  lemma {:induction false} RemainingAll(existing: seq<string>, removed: seq<string>)
    ensures Remaining(existing, removed) == existing <==> Disjoint(existing, removed)
    ensures |Remaining(existing, removed)| <= |existing|
    ensures (forall p :: p in existing ==> p in removed) ==> Remaining(existing, removed) == []
  {
    if existing != [] {
      var t := existing[1..];
      RemainingAll(t, removed);
      assert existing == [existing[0]] + t;
      assert forall p :: p in existing <==> p == existing[0] || p in t;
      if existing[0] !in removed && Remaining(existing, removed) == existing {
        assert Remaining(existing, removed)[1..] == Remaining(t, removed);
      }
    }
  }

  /** Removing what was just added restores the old list exactly when the two lists were disjoint. */
  lemma AddThenRemove(existing: seq<string>, added: seq<string>)
    ensures Remaining(Merge(existing, added), added) == existing <==> Disjoint(existing, added)
  {
    var m := Merge(existing, added);
    MergeMeaning(existing, added);
    var suffix := m[|existing|..];
    assert m == existing + suffix;
    forall p | p in suffix ensures p in added {
      assert p in m && p !in existing;
    }
    RemainingConcat(existing, suffix, added);
    RemainingAll(suffix, added);
    RemainingAll(existing, added);
  }
}
