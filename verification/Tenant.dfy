/**
 Tenant naming and module lists: the schema name and the organisation key derived back from
 it, the key an e-mail address belongs to, and the modules a user ends up with.
 */
module Tenant {
  import opened Basics

  const PREFIX := "tenant_"

  // ----- str.split with a separator -----

  predicate OccursAt(s: string, sep: string, i: nat) {
    i + |sep| <= |s| && s[i..i + |sep|] == sep
  }

  predicate Contains(s: string, sep: string) {
    exists i :: 0 <= i <= |s| && OccursAt(s, sep, i)
  }

  /** The first occurrence at or after `from`, or the length if there is none. */
  function Find(s: string, sep: string, from: nat): (i: nat)
    requires from <= |s| && sep != ""
    ensures from <= i <= |s| && (i < |s| ==> OccursAt(s, sep, i))
    ensures forall j :: from <= j < i ==> !OccursAt(s, sep, j)
    decreases |s| - from
  {
    if from == |s| || OccursAt(s, sep, from) then from else Find(s, sep, from + 1)
  }

  function Split(s: string, sep: string): (parts: seq<string>)
    requires sep != ""
    ensures parts != []
    decreases |s|
  {
    var i := Find(s, sep, 0);
    if i == |s| then [s] else [s[..i]] + Split(s[i + |sep|..], sep)
  }

  /** `schema.split("tenant_")[1]`, for a schema name that starts with the prefix. */
  function OrgKeyOfSchema(schema: string): string
    requires |schema| >= 7 && schema[..7] == PREFIX
  {
    assert OccursAt(schema, PREFIX, 0);
    Split(schema, PREFIX)[1]
  }

  /**
   Exactly when an organisation finds itself again: the key read back from its schema name is
   its own key if and only if the key does not contain the prefix.
   */
  lemma KeyReadsBackIff(key: string)
    ensures (PREFIX + key)[..7] == PREFIX
    ensures OrgKeyOfSchema(PREFIX + key) == key <==> !Contains(key, PREFIX)
  {
    var schema := PREFIX + key;
    assert schema[..7] == PREFIX && schema[7..] == key;
    assert OccursAt(schema, PREFIX, 0);
    assert Find(schema, PREFIX, 0) == 0;
    var i := Find(key, PREFIX, 0);
    if Contains(key, PREFIX) {
      var j :| 0 <= j <= |key| && OccursAt(key, PREFIX, j);
      assert i <= j < |key|;
      assert Split(key, PREFIX)[0] == key[..i] && |key[..i]| < |key|;
    } else {
      assert Split(key, PREFIX) == [key];
    }
  }

  // ----- E-mail addresses -----

  const COMMON_DOMAINS := {
    "gmail", "yahoo", "hotmail", "outlook", "icloud", "aol", "zoho", "protonmail", "proton", "mail", "live", "msn",
    "googlemail", "me", "mac", "ymail", "rocketmail"
  }

  /** `trimmed` is `strip().lower()`, left to the caller as a function on text. */
  function FirstLabel(email: string, trimmed: string -> string): Option<string> {
    if '@' !in email then None
    else
      assert Find(email, "@", 0) < |email| by {
        var i :| 0 <= i < |email| && email[i] == '@';
        assert OccursAt(email, "@", i);
      }
      var labels := Split(trimmed(Split(email, "@")[1]), ".");
      if |labels| >= 2 then Some(labels[0]) else None
  }

  predicate IsPersonalEmail(email: string, trimmed: string -> string) {
    var first := FirstLabel(email, trimmed);
    first.Some? && first.value in COMMON_DOMAINS
  }

  function OrgKeyFromEmail(email: string, trimmed: string -> string): Option<string> {
    match FirstLabel(email, trimmed)
    case None => None
    case Some(first) => if first in COMMON_DOMAINS then Some("individual") else Some(first)
  }

  /** A text that stops before its first one-character separator splits off there. */
  lemma SplitsOffHead(head: string, sep: char, rest: string)
    requires sep !in head
    ensures Split(head + [sep] + rest, [sep]) == [head] + Split(rest, [sep])
  {
    var s := head + [sep] + rest;
    assert OccursAt(s, [sep], |head|);
    forall j | 0 <= j < |head| ensures !OccursAt(s, [sep], j) {
      assert s[j] == head[j] && s[j..j + 1] == [s[j]];
    }
    assert Find(s, [sep], 0) == |head|;
    assert s[..|head|] == head && s[|head| + 1..] == rest;
  }

  lemma SplitsNowhere(s: string, sep: char)
    requires sep !in s
    ensures Split(s, [sep]) == [s]
  {
    forall j | 0 <= j < |s| ensures !OccursAt(s, [sep], j) {
      assert s[j..j + 1] == [s[j]];
    }
  }

  lemma DomainFirst(domain: string, tail: string)
    requires '@' !in domain && (tail == "" || tail[0] == '@')
    ensures Split(domain + tail, "@")[0] == domain
  {
    if tail == "" {
      assert domain + tail == domain;
      SplitsNowhere(domain, '@');
    } else {
      assert domain + tail == domain + ['@'] + tail[1..];
      SplitsOffHead(domain, '@', tail[1..]);
    }
  }

  /** Everything after a second '@', if there is one, is ignored. */
  lemma DomainOf(local: string, domain: string, tail: string)
    requires '@' !in local && '@' !in domain && (tail == "" || tail[0] == '@')
    ensures |Split(local + "@" + (domain + tail), "@")| >= 2 && Split(local + "@" + (domain + tail), "@")[1] == domain
  {
    SplitsOffHead(local, '@', domain + tail);
    DomainFirst(domain, tail);
  }

  /**
   The first label of an address, on its text: what the trimmed domain has before its first
   dot, and nothing if the domain has no dot.
   */
  lemma FirstLabelIs(local: string, domain: string, tail: string, trimmed: string -> string)
    requires '@' !in local && '@' !in domain && (tail == "" || tail[0] == '@')
    ensures forall first, rest :: trimmed(domain) == first + "." + rest && '.' !in first ==>
              FirstLabel(local + "@" + (domain + tail), trimmed) == Some(first)
    ensures '.' !in trimmed(domain) ==> FirstLabel(local + "@" + (domain + tail), trimmed) == None
  {
    DomainOf(local, domain, tail);
    var email := local + "@" + (domain + tail);
    assert email[|local|] == '@';
    forall first, rest | trimmed(domain) == first + "." + rest && '.' !in first
      ensures FirstLabel(email, trimmed) == Some(first)
    {
      SplitsOffHead(first, '.', rest);
    }
    if '.' !in trimmed(domain) {
      SplitsNowhere(trimmed(domain), '.');
    }
  }

  /**
   Who lands in the shared tenant, on the text of the address: it is personal exactly when the
   first label of its domain is a common one, and it gets the key "individual" exactly when it
   is personal or that label is literally "individual".
   */
  lemma IndividualIff(local: string, domain: string, tail: string, trimmed: string -> string,
                       first: string, rest: string)
    requires '@' !in local && '@' !in domain && (tail == "" || tail[0] == '@')
    requires trimmed(domain) == first + "." + rest && '.' !in first
    ensures var email := local + "@" + (domain + tail);
            && (IsPersonalEmail(email, trimmed) <==> first in COMMON_DOMAINS)
            && (OrgKeyFromEmail(email, trimmed) == Some("individual")
                <==> IsPersonalEmail(email, trimmed) || first == "individual")
            && (!IsPersonalEmail(email, trimmed) ==> OrgKeyFromEmail(email, trimmed) == Some(first))
  {
    FirstLabelIs(local, domain, tail, trimmed);
  }

  // ----- Modules -----

  const DEFAULT_MODULES := [
    "dashboard", "servers", "tickets", "settings", "nginx", "pm2", "systemd", "automation",
    "firewall", "processes", "ssl", "ssh", "files", "luxegenie", "sql"
  ]

  datatype User = User(role: string, enabledModules: Option<seq<string>>)

  /** `orgs` maps an organisation key to its module list, if it has set one. */
  function OrgModules(orgs: map<string, Option<seq<string>>>, schema: Option<string>): seq<string> {
    if schema.Some? && |schema.value| >= 7 && schema.value[..7] == PREFIX && schema.value != "tenant_individual" then
      var key := OrgKeyOfSchema(schema.value);
      if key in orgs && orgs[key].Some? then orgs[key].value else DEFAULT_MODULES
    else DEFAULT_MODULES
  }

  /** `[m for m in wanted if m in allowed]`. */
  function Filtered(wanted: seq<string>, allowed: seq<string>): seq<string> {
    if wanted == [] then [] else (if wanted[0] in allowed then [wanted[0]] else []) + Filtered(wanted[1..], allowed)
  }

  function ResolvedModules(orgs: map<string, Option<seq<string>>>, user: User, schema: Option<string>): seq<string> {
    if user.role == "support" then ["tickets", "settings"]
    else if user.enabledModules.Some? then Filtered(user.enabledModules.value, OrgModules(orgs, schema))
    else OrgModules(orgs, schema)
  }

  /** The assignment of `update_user_modules`. */
  function Updated(orgs: map<string, Option<seq<string>>>, user: User, schema: Option<string>,
                   requested: Option<seq<string>>): User {
    user.(enabledModules := if requested.Some? then Some(Filtered(requested.value, OrgModules(orgs, schema))) else None)
  }

  predicate Sublist(a: seq<string>, b: seq<string>) {
    a == [] || (b != [] && if a[0] == b[0] then Sublist(a[1..], b[1..]) else Sublist(a, b[1..]))
  }

  lemma {:induction false} FilteredIs(wanted: seq<string>, allowed: seq<string>)
    ensures Sublist(Filtered(wanted, allowed), wanted)
    ensures forall m :: m in Filtered(wanted, allowed) <==> m in wanted && m in allowed
  {
    if wanted != [] {
      FilteredIs(wanted[1..], allowed);
      var rest := Filtered(wanted[1..], allowed);
      if wanted[0] in allowed {
        assert Filtered(wanted, allowed)[1..] == rest;
      } else {
        assert Filtered(wanted, allowed) == rest;
        assert rest != [] ==> rest[0] in rest;
      }
    }
  }

  lemma {:induction false} FilteredKeepsAll(wanted: seq<string>, allowed: seq<string>)
    requires forall m :: m in wanted ==> m in allowed
    ensures Filtered(wanted, allowed) == wanted
  {
    if wanted != [] {
      FilteredKeepsAll(wanted[1..], allowed);
    }
  }

  lemma {:induction false} SublistOfItself(a: seq<string>)
    ensures Sublist(a, a)
  {
    if a != [] {
      SublistOfItself(a[1..]);
    }
  }

  /**
   A user other than support has exactly the modules that the organisation has and, if there is
   a list of the user's own, that list has too; they come in the order of that list.
   */
  lemma ResolvedIsIntersection(orgs: map<string, Option<seq<string>>>, user: User, schema: Option<string>)
    requires user.role != "support"
    ensures var resolved := ResolvedModules(orgs, user, schema);
            && (forall m :: m in resolved <==>
                  m in OrgModules(orgs, schema) && (user.enabledModules.Some? ==> m in user.enabledModules.value))
            && Sublist(resolved,
                       if user.enabledModules.Some? then user.enabledModules.value else OrgModules(orgs, schema))
  {
    if user.enabledModules.Some? {
      FilteredIs(user.enabledModules.value, OrgModules(orgs, schema));
    } else {
      SublistOfItself(OrgModules(orgs, schema));
    }
  }

  /** Resolving right after an update, the organisation unchanged, gives back the list just stored. */
  lemma ResolveAfterUpdate(orgs: map<string, Option<seq<string>>>, user: User, schema: Option<string>,
                           requested: seq<string>)
    requires user.role != "support"
    ensures var updated := Updated(orgs, user, schema, Some(requested));
            updated.enabledModules == Some(ResolvedModules(orgs, updated, schema))
  {
    var org := OrgModules(orgs, schema);
    FilteredIs(requested, org);
    FilteredKeepsAll(Filtered(requested, org), org);
  }

  /** Filtering keeps each entry as often as it was there, and in place. */
  lemma {:induction false} FilteredJoined(a: seq<string>, b: seq<string>, allowed: seq<string>, m: string)
    ensures Filtered(a + b, allowed) == Filtered(a, allowed) + Filtered(b, allowed)
    ensures Filtered([m], allowed) == if m in allowed then [m] else []
  {
    assert [m][1..] == [];
    if a == [] {
      assert a + b == b;
    } else {
      assert (a + b)[1..] == a[1..] + b;
      FilteredJoined(a[1..], b, allowed, m);
    }
  }

  /** An update stores the requested modules that the organisation has, in the order requested, or no list at all. */
  lemma UpdateStores(orgs: map<string, Option<seq<string>>>, user: User, schema: Option<string>, requested: seq<string>)
    ensures var stored := Updated(orgs, user, schema, Some(requested)).enabledModules;
            && stored.Some? && Sublist(stored.value, requested)
            && (forall m :: m in stored.value <==> m in requested && m in OrgModules(orgs, schema))
            && ((forall m :: m in requested ==> m in OrgModules(orgs, schema)) ==> stored.value == requested)
    ensures Updated(orgs, user, schema, None).enabledModules == None
    ensures Updated(orgs, user, schema, Some(requested)).role == user.role
  {
    FilteredIs(requested, OrgModules(orgs, schema));
    if forall m :: m in requested ==> m in OrgModules(orgs, schema) {
      FilteredKeepsAll(requested, OrgModules(orgs, schema));
    }
  }

  /** Support users have their two modules, whatever is stored. */
  lemma SupportModules(orgs: map<string, Option<seq<string>>>, user: User, schema: Option<string>)
    ensures user.role == "support" ==> ResolvedModules(orgs, user, schema) == ["tickets", "settings"]
  {
  }

  /**
   An organisation that finds itself by its schema name has the list it has set; one that has
   set none or is not known, the shared tenant and any other schema have the default list.
   */
  lemma OrganisationModules(orgs: map<string, Option<seq<string>>>, key: string)
    requires !Contains(key, PREFIX)
    ensures OrgModules(orgs, Some("tenant_" + key))
            == if key != "individual" && key in orgs && orgs[key].Some? then orgs[key].value else DEFAULT_MODULES
    ensures OrgModules(orgs, None) == DEFAULT_MODULES
    ensures forall schema: string :: !("tenant_" <= schema) ==> OrgModules(orgs, Some(schema)) == DEFAULT_MODULES
  {
    KeyReadsBackIff(key);
    assert ("tenant_" + key)[7..] == key && ("tenant_" + "individual")[7..] == "individual";
  }

  // ----- Whose order the modules come in -----

  function IndexOf(list: seq<string>, m: string): (i: nat)
    requires m in list
    ensures i < |list| && list[i] == m && m !in list[..i]
  {
    if list[0] == m then 0
    else
      var i := IndexOf(list[1..], m);
      assert list[..1 + i] == [list[0]] + list[1..][..i];
      1 + i
  }

  predicate DuplicateFree(list: seq<string>) {
    forall i, j :: 0 <= i < j < |list| ==> list[i] != list[j]
  }

  /** Those of `wanted` that the organisation has stand in the organisation's order, each once. */
  predicate InOrderOf(wanted: seq<string>, org: seq<string>) {
    forall i, j :: 0 <= i < j < |wanted| && wanted[i] in org && wanted[j] in org ==>
      IndexOf(org, wanted[i]) < IndexOf(org, wanted[j])
  }

  lemma {:induction false} SublistIsIn(a: seq<string>, b: seq<string>)
    requires Sublist(a, b)
    ensures forall m :: m in a ==> m in b
  {
    if a != [] {
      assert a == [a[0]] + a[1..];
      if a[0] == b[0] {
        SublistIsIn(a[1..], b[1..]);
      } else {
        SublistIsIn(a, b[1..]);
      }
    }
  }

  /** A text that is not first keeps its place, one further on. */
  lemma IndexInRest(list: seq<string>, m: string)
    requires m in list && m != list[0]
    ensures m in list[1..] && IndexOf(list, m) == 1 + IndexOf(list[1..], m)
  {
  }

  lemma InOrderOfRest(a: seq<string>, org: seq<string>)
    requires org != [] && org[0] !in a && forall m :: m in a ==> m in org
    ensures forall m :: m in a ==> m in org[1..]
    ensures InOrderOf(a, org) <==> InOrderOf(a, org[1..])
  {
    forall i | 0 <= i < |a| ensures a[i] in org[1..] && IndexOf(org, a[i]) == 1 + IndexOf(org[1..], a[i]) {
      IndexInRest(org, a[i]);
    }
  }

  lemma InOrderHead(a: seq<string>, org: seq<string>)
    requires a != []
    ensures InOrderOf(a, org) <==>
              InOrderOf(a[1..], org)
              && (a[0] in org ==> forall m :: m in a[1..] && m in org ==> IndexOf(org, a[0]) < IndexOf(org, m))
  {
    if InOrderOf(a, org) && a[0] in org {
      forall m | m in a[1..] && m in org ensures IndexOf(org, a[0]) < IndexOf(org, m) {
        var j :| 0 <= j < |a[1..]| && a[1..][j] == m;
        assert a[j + 1] == m;
      }
    }
    if InOrderOf(a[1..], org) {
      forall i, j | 0 < i < j < |a| && a[i] in org && a[j] in org ensures IndexOf(org, a[i]) < IndexOf(org, a[j]) {
        assert a[1..][i - 1] == a[i] && a[1..][j - 1] == a[j];
      }
    }
  }

  /** Within a list without duplicates, being a sublist is being in its order. */
  lemma {:induction false} SublistIff(a: seq<string>, org: seq<string>)
    requires DuplicateFree(org) && forall m :: m in a ==> m in org
    ensures Sublist(a, org) <==> InOrderOf(a, org)
  {
    if a != [] {
      assert a[0] in org;
      var rest := if a[0] == org[0] then a[1..] else a;
      InOrderHead(a, org);
      if org[0] in rest {
        if Sublist(rest, org[1..]) {
          SublistIsIn(rest, org[1..]);
          assert false;
        }
        assert IndexOf(org, org[0]) == 0;
      } else {
        InOrderOfRest(rest, org);
        SublistIff(rest, org[1..]);
      }
    }
  }

  /** What the organisation does not have plays no part in the order. */
  lemma {:induction false} FilteredInOrder(wanted: seq<string>, org: seq<string>)
    ensures InOrderOf(Filtered(wanted, org), org) <==> InOrderOf(wanted, org)
  {
    if wanted != [] {
      FilteredInOrder(wanted[1..], org);
      FilteredIs(wanted[1..], org);
      InOrderHead(wanted, org);
      if wanted[0] in org {
        InOrderHead(Filtered(wanted, org), org);
        assert Filtered(wanted, org)[1..] == Filtered(wanted[1..], org);
      } else {
        assert Filtered(wanted, org) == Filtered(wanted[1..], org);
      }
    }
  }

  /**
   Exactly when a user's modules are a sublist of the organisation's, for an organisation that
   lists no module twice: with no list of the user's own they always are, and with one they
   are if and only if those of its entries that the organisation has stand in the
   organisation's order.
   */
  lemma OrganisationOrderIff(orgs: map<string, Option<seq<string>>>, user: User, schema: Option<string>)
    requires user.role != "support" && DuplicateFree(OrgModules(orgs, schema))
    ensures Sublist(ResolvedModules(orgs, user, schema), OrgModules(orgs, schema))
            <==> (user.enabledModules.Some? ==> InOrderOf(user.enabledModules.value, OrgModules(orgs, schema)))
  {
    var org := OrgModules(orgs, schema);
    if user.enabledModules.Some? {
      FilteredIs(user.enabledModules.value, org);
      SublistIff(Filtered(user.enabledModules.value, org), org);
      FilteredInOrder(user.enabledModules.value, org);
    } else {
      SublistOfItself(org);
    }
  }

  /** The order is the user's, not the organisation's: a list stored the other way round stays so. */
  lemma OrderIsTheUsers(orgs: map<string, Option<seq<string>>>, schema: Option<string>, a: string, b: string)
    requires OrgModules(orgs, schema) == [a, b] && a != b
    ensures ResolvedModules(orgs, User("member", Some([b, a])), schema) == [b, a]
    ensures !Sublist([b, a], OrgModules(orgs, schema))
  {
    FilteredKeepsAll([b, a], [a, b]);
    assert [a, b][1..] == [b] && [b, a][1..] == [a] && [b][1..] == [];
    assert !Sublist([a], []) && !Sublist([b, a], [b]);
  }
}
