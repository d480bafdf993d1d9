/**
 The folder forest: `parent_id` pointers that deletes contract and moves rewire.

 `Chain` lists a folder's ancestors from its parent up.  A parent map is a forest when
 every folder has such a chain, that is, when following parents always ends; `ForestIffAcyclic`
 shows that this is the absence of cycles.
 */
module Folders {
  import opened Basics

  type Id = nat
  type Parents = map<Id, Option<Id>>

  /** `chain` is the list of ancestors of `x`, nearest first, up to a top-level folder. */
  predicate IsChain(m: Parents, x: Id, chain: seq<Id>)
    decreases |chain|
  {
    x in m && if chain == [] then m[x] == None else m[x] == Some(chain[0]) && IsChain(m, chain[0], chain[1..])
  }

  ghost predicate Rooted(m: Parents, x: Id) {
    exists chain :: IsChain(m, x, chain)
  }

  ghost predicate Forest(m: Parents) {
    forall x :: x in m ==> Rooted(m, x)
  }

  ghost function Chain(m: Parents, x: Id): (chain: seq<Id>)
    requires Rooted(m, x)
    ensures IsChain(m, x, chain)
  {
    var chain :| IsChain(m, x, chain);
    chain
  }

  lemma {:induction false} ChainUnique(m: Parents, x: Id, a: seq<Id>, b: seq<Id>)
    requires IsChain(m, x, a) && IsChain(m, x, b)
    ensures a == b
    decreases |a|
  {
    if a != [] && b != [] {
      ChainUnique(m, a[0], a[1..], b[1..]);
    }
  }

  /** The chain of an ancestor is the rest of the chain beyond it. */
  lemma {:induction false} ChainOfAncestor(m: Parents, x: Id, chain: seq<Id>, i: nat)
    requires IsChain(m, x, chain) && i < |chain|
    ensures IsChain(m, chain[i], chain[i + 1..])
    decreases |chain|
  {
    if i > 0 {
      ChainOfAncestor(m, chain[0], chain[1..], i - 1);
      assert chain[1..][i..] == chain[i + 1..];
    }
  }

  /** No folder is its own ancestor, and none occurs twice in a chain. */
  lemma ChainHasNoRepeats(m: Parents, x: Id, chain: seq<Id>)
    requires IsChain(m, x, chain)
    ensures x !in chain
    ensures forall i, j :: 0 <= i < j < |chain| ==> chain[i] != chain[j]
  {
    if i :| 0 <= i < |chain| && chain[i] == x {
      ChainOfAncestor(m, x, chain, i);
      ChainUnique(m, x, chain, chain[i + 1..]);
    }
    if i, j :| 0 <= i < j < |chain| && chain[i] == chain[j] {
      ChainOfAncestor(m, x, chain, i);
      ChainOfAncestor(m, x, chain, j);
      ChainUnique(m, chain[i], chain[i + 1..], chain[j + 1..]);
    }
  }

  // ----- Delete -----

  function Without(chain: seq<Id>, d: Id): (r: seq<Id>)
    ensures forall y :: y in r <==> y in chain && y != d
  {
    if chain == [] then [] else (if chain[0] == d then [] else [chain[0]]) + Without(chain[1..], d)
  }

  lemma {:induction false} WithoutLength(chain: seq<Id>, d: Id)
    requires forall i, j :: 0 <= i < j < |chain| ==> chain[i] != chain[j]
    ensures |Without(chain, d)| == |chain| - if d in chain then 1 else 0
    ensures d !in chain ==> Without(chain, d) == chain
  {
    if chain != [] {
      WithoutLength(chain[1..], d);
    }
  }

  /** The two statements of `delete_folder` on this table: reparent the children, drop the row. */
  function Contract(m: Parents, d: Id): Parents
    requires d in m
  {
    map x | x in m && x != d :: if m[x] == Some(d) then m[d] else m[x]
  }

  /** Deleting a folder takes it out of every chain and changes nothing else about them. */
  lemma {:induction false} DeleteContractsChain(m: Parents, d: Id, x: Id, chain: seq<Id>)
    requires d in m && x != d && IsChain(m, x, chain)
    ensures IsChain(Contract(m, d), x, Without(chain, d))
    decreases |chain|
  {
    ChainHasNoRepeats(m, x, chain);
    if chain != [] {
      if chain[0] == d {
        assert IsChain(m, d, chain[1..]);
        ChainHasNoRepeats(m, d, chain[1..]);
        WithoutLength(chain[1..], d);
        if |chain| > 1 {
          DeleteContractsChain(m, d, chain[1], chain[2..]);
          assert Without(chain, d) == chain[1..] == [chain[1]] + Without(chain[2..], d);
        }
      } else {
        DeleteContractsChain(m, d, chain[0], chain[1..]);
        assert Without(chain, d) == [chain[0]] + Without(chain[1..], d);
      }
    }
  }

  /**
   Deleting a folder contracts one edge.  The rest stays a forest, every surviving folder has
   the ancestors it had, in the same order, without the deleted one; so exactly the former
   descendants come up by one level.
   */
  lemma DeleteIsContraction(m: Parents, d: Id)
    requires Forest(m) && d in m
    ensures Forest(Contract(m, d)) && Contract(m, d).Keys == m.Keys - {d}
    ensures forall x :: x in m && x != d ==>
              && Chain(Contract(m, d), x) == Without(Chain(m, x), d)
              && |Chain(Contract(m, d), x)| == |Chain(m, x)| - (if d in Chain(m, x) then 1 else 0)
  {
    var m' := Contract(m, d);
    forall x | x in m && x != d
      ensures Rooted(m', x) && Chain(m', x) == Without(Chain(m, x), d)
      ensures |Chain(m', x)| == |Chain(m, x)| - (if d in Chain(m, x) then 1 else 0)
    {
      DeleteContractsChain(m, d, x, Chain(m, x));
      ChainUnique(m', x, Chain(m', x), Without(Chain(m, x), d));
      ChainHasNoRepeats(m, x, Chain(m, x));
      WithoutLength(Chain(m, x), d);
    }
  }

  // ----- Move -----

  /** A folder not under `f` keeps its chain when `f` moves. */
  lemma {:induction false} MoveSpares(m: Parents, f: Id, q: Option<Id>, x: Id, chain: seq<Id>)
    requires f in m && x != f && IsChain(m, x, chain) && f !in chain
    ensures IsChain(m[f := q], x, chain)
    decreases |chain|
  {
    if chain != [] {
      MoveSpares(m, f, q, chain[0], chain[1..]);
    }
  }

  /** A folder under `f` keeps its chain up to `f` and continues with the new chain of `f`. */
  lemma {:induction false} MoveRewires(m: Parents, f: Id, q: Option<Id>, above: seq<Id>, x: Id, chain: seq<Id>, i: nat)
    requires f in m && x != f && IsChain(m, x, chain) && i < |chain| && chain[i] == f && f !in chain[..i]
    requires IsChain(m[f := q], f, above)
    ensures IsChain(m[f := q], x, chain[..i + 1] + above)
    decreases |chain|
  {
    var r := chain[..i + 1] + above;
    if i > 0 {
      assert chain[1..][..i - 1] == chain[1..i];
      assert f !in chain[1..i];
      MoveRewires(m, f, q, above, chain[0], chain[1..], i - 1);
      assert r[1..] == chain[1..][..i] + above;
    } else {
      assert r[1..] == above;
    }
  }

  /** As long as a chain has not met `f`, the move does not change where it goes. */
  lemma {:induction false} StillMeets(m: Parents, f: Id, q: Option<Id>, x: Id, before: seq<Id>, after: seq<Id>)
    requires f in m && x != f && IsChain(m, x, before) && f in before && IsChain(m[f := q], x, after)
    ensures f in after
    decreases |before|
  {
    if before[0] != f {
      StillMeets(m, f, q, before[0], before[1..], after[1..]);
    }
  }

  function FirstIndex(chain: seq<Id>, f: Id): (i: nat)
    requires f in chain
    ensures i < |chain| && chain[i] == f && f !in chain[..i]
  {
    if chain[0] == f then 0
    else
      var rest := FirstIndex(chain[1..], f);
      assert chain[..rest + 1] == [chain[0]] + chain[1..][..rest];
      rest + 1
  }

  lemma MoveKeepsForest(m: Parents, f: Id, q: Option<Id>)
    requires Forest(m) && f in m && (q.Some? ==> q.value in m && q.value != f && f !in Chain(m, q.value))
    ensures Forest(m[f := q])
  {
    var m' := m[f := q];
    var above := if q == None then [] else [q.value] + Chain(m, q.value);
    if q.Some? {
      MoveSpares(m, f, q, q.value, Chain(m, q.value));
      assert above[1..] == Chain(m, q.value);
    }
    assert IsChain(m', f, above);
    forall x | x in m' ensures Rooted(m', x) {
      if x != f {
        var chain := Chain(m, x);
        if f in chain {
          var i := FirstIndex(chain, f);
          MoveRewires(m, f, q, above, x, chain, i);
        } else {
          MoveSpares(m, f, q, x, chain);
        }
      }
    }
  }

  /**
   Exactly when a move is safe: giving `f` a new parent keeps a forest if and only if that
   parent is neither `f` nor one of its descendants.
   */
  lemma MoveKeepsForestIff(m: Parents, f: Id, q: Option<Id>)
    requires Forest(m) && f in m && (q.Some? ==> q.value in m)
    ensures Forest(m[f := q]) <==> (q == None || (q.value != f && f !in Chain(m, q.value)))
  {
    var m' := m[f := q];
    if q == None || (q.value != f && f !in Chain(m, q.value)) {
      MoveKeepsForest(m, f, q);
    } else if Forest(m') {
      var above := Chain(m', f);
      ChainHasNoRepeats(m', f, above);
      if q.value != f {
        StillMeets(m, f, q, q.value, Chain(m, q.value), above[1..]);
      }
    }
  }

  // ----- Forests are exactly the closed parent maps without cycles -----

  /** The `n`-th ancestor, if following parents from `x` gets that far. */
  function Climb(m: Parents, x: Id, n: nat): Option<Id> {
    if n == 0 then Some(x)
    else
      match Climb(m, x, n - 1)
      case None => None
      case Some(y) => if y in m then m[y] else None
  }

  ghost predicate Acyclic(m: Parents) {
    forall x, n: nat :: x in m && n > 0 ==> Climb(m, x, n) != Some(x)
  }

  /** The foreign key on `parent_id`. */
  ghost predicate Closed(m: Parents) {
    forall x :: x in m && m[x].Some? ==> m[x].value in m
  }

  lemma {:induction false} ClimbAlongChain(m: Parents, x: Id, chain: seq<Id>, n: nat)
    requires IsChain(m, x, chain)
    ensures Climb(m, x, n) == if n == 0 then Some(x) else if n <= |chain| then Some(chain[n - 1]) else None
  {
    if n > 0 {
      ClimbAlongChain(m, x, chain, n - 1);
      if 0 < n - 1 <= |chain| {
        ChainOfAncestor(m, x, chain, n - 2);
      }
    }
  }

  ghost predicate LeadsTo(m: Parents, s: Id, x: Id) {
    exists n: nat :: n > 0 && Climb(m, s, n) == Some(x)
  }

  /** Walk up; every folder met so far leads to the current one, so meeting it again is a cycle. */
  lemma {:induction false} WalkToTop(m: Parents, x: Id, seen: set<Id>)
    requires Closed(m) && Acyclic(m) && x in m && seen <= m.Keys
    requires forall s :: s in seen ==> LeadsTo(m, s, x)
    ensures Rooted(m, x)
    decreases m.Keys - seen
  {
    if m[x] == None {
      assert IsChain(m, x, []);
    } else {
      var y := m[x].value;
      assert x !in seen;
      forall s | s in seen + {x} ensures LeadsTo(m, s, y) {
        if s == x {
          assert Climb(m, x, 0) == Some(x) && Climb(m, x, 1) == Some(y);
        } else {
          var n: nat :| n > 0 && Climb(m, s, n) == Some(x);
          assert Climb(m, s, n + 1) == Some(y);
        }
      }
      WalkToTop(m, y, seen + {x});
      assert IsChain(m, x, [y] + Chain(m, y)) by {
        assert ([y] + Chain(m, y))[1..] == Chain(m, y);
      }
    }
  }

  lemma ForestIffAcyclic(m: Parents)
    requires Closed(m)
    ensures Forest(m) <==> Acyclic(m)
  {
    if Forest(m) {
      forall x, n: nat | x in m && n > 0 ensures Climb(m, x, n) != Some(x) {
        ClimbAlongChain(m, x, Chain(m, x), n);
        ChainHasNoRepeats(m, x, Chain(m, x));
      }
    }
    if Acyclic(m) {
      forall x | x in m ensures Rooted(m, x) {
        WalkToTop(m, x, {});
      }
    }
  }

  // ----- The two tables and the endpoints -----

  datatype Folder = Folder(parent: Option<Id>, team: nat)

  datatype Store = Store(folders: map<Id, Folder>, servers: map<nat, Option<Id>>)

  /** `Integrity`: the database refuses, because a foreign key or the primary key would be violated. */
  datatype Error = NotFound | Integrity

  function ParentsOf(folders: map<Id, Folder>): Parents {
    map x | x in folders :: folders[x].parent
  }

  /** No row points at a folder that is not there. */
  ghost predicate Linked(s: Store) {
    Closed(ParentsOf(s.folders)) && forall v :: v in s.servers && s.servers[v].Some? ==> s.servers[v].value in s.folders
  }

  datatype Step =
    | Create(id: Id, parent: Option<Id>, team: nat)
    | Delete(id: Id, team: nat)
    | Move(id: Id, parent: Option<Id>, team: nat)

  predicate Owned(s: Store, id: Id, team: nat) {
    id in s.folders && s.folders[id].team == team
  }

  predicate Exists(s: Store, parent: Option<Id>) {
    parent.Some? ==> parent.value in s.folders
  }

  /** A folder that is its own parent hands that parent to its children, and then cannot be dropped. */
  predicate Strands(s: Store, id: Id) {
    id in s.folders && s.folders[id].parent == Some(id) &&
    exists x :: x in s.folders && x != id && s.folders[x].parent == Some(id)
  }

  /** One committed request, or its error and no change. */
  function Request(s: Store, step: Step): Result<Store, Error> {
    match step
    case Create(id, parent, team) =>
      if id in s.folders || !Exists(s, parent) then Err(Integrity)
      else Ok(s.(folders := s.folders[id := Folder(parent, team)]))
    case Delete(id, team) =>
      if !Owned(s, id, team) then Err(NotFound)
      else if Strands(s, id) then Err(Integrity)
      else
        var up := s.folders[id].parent;
        Ok(Store(
             map x | x in s.folders && x != id ::
               if s.folders[x].parent == Some(id) then s.folders[x].(parent := up) else s.folders[x],
             map v | v in s.servers :: if s.servers[v] == Some(id) then None else s.servers[v]))
    case Move(id, parent, team) =>
      if !Owned(s, id, team) then Err(NotFound)
      else if !Exists(s, parent) then Err(Integrity)
      else Ok(s.(folders := s.folders[id := s.folders[id].(parent := parent)]))
  }

  function Next(s: Store, step: Step): Store {
    match Request(s, step) case Ok(t) => t case Err(_) => s
  }

  /** The condition `MoveKeepsForestIff` finds, as a check a caller can make before the request. */
  ghost predicate Sensible(s: Store, step: Step) {
    var m := ParentsOf(s.folders);
    step.Move? && step.parent.Some? && Rooted(m, step.parent.value) ==>
      step.parent.value != step.id && step.id !in Chain(m, step.parent.value)
  }

  ghost predicate AllSensible(s: Store, steps: seq<Step>)
    decreases |steps|
  {
    steps == [] || (Sensible(s, steps[0]) && AllSensible(Next(s, steps[0]), steps[1..]))
  }

  function Exec(s: Store, steps: seq<Step>): Store
    decreases |steps|
  {
    if steps == [] then s else Exec(Next(s, steps[0]), steps[1..])
  }

  lemma {:induction false} ChainAvoidsNew(m: Parents, id: Id, parent: Option<Id>, x: Id, chain: seq<Id>)
    requires id !in m && IsChain(m, x, chain)
    ensures IsChain(m[id := parent], x, chain)
    decreases |chain|
  {
    if chain != [] {
      ChainAvoidsNew(m, id, parent, chain[0], chain[1..]);
    }
  }

  lemma CreateKeepsForest(m: Parents, id: Id, parent: Option<Id>)
    requires Forest(m) && id !in m && (parent.Some? ==> parent.value in m) && Closed(m)
    ensures Forest(m[id := parent])
  {
    var m' := m[id := parent];
    forall x | x in m' ensures Rooted(m', x) {
      if x == id {
        var above := if parent == None then [] else [parent.value] + Chain(m, parent.value);
        if parent.Some? {
          ChainAvoidsNew(m, id, parent, parent.value, Chain(m, parent.value));
          assert above[1..] == Chain(m, parent.value);
        }
        assert IsChain(m', id, above);
      } else {
        ChainAvoidsNew(m, id, parent, x, Chain(m, x));
      }
    }
  }

  /** In a forest a delete by the owning team always succeeds, and leaves nothing pointing at the folder. */
  lemma DeleteLeavesNoReference(s: Store, id: Id, team: nat)
    requires Forest(ParentsOf(s.folders)) && Linked(s) && Owned(s, id, team)
    ensures Request(s, Delete(id, team)).Ok?
    ensures var t := Request(s, Delete(id, team)).value;
            && ParentsOf(t.folders) == Contract(ParentsOf(s.folders), id)
            && Linked(t) && id !in t.folders
            && t.servers.Keys == s.servers.Keys
            && (forall v :: v in t.servers ==>
                  && t.servers[v] != Some(id)
                  && t.servers[v] == if s.servers[v] == Some(id) then None else s.servers[v])
            && (forall x :: x in t.folders ==>
                  && t.folders[x].parent != Some(id)
                  && t.folders[x].team == s.folders[x].team)
  {
    var m := ParentsOf(s.folders);
    ChainHasNoRepeats(m, id, Chain(m, id));
  }

  /** Whose requests are refused, and why; a refused one changes nothing. */
  lemma RefusedIff(s: Store, step: Step)
    ensures var refused := match Request(s, step) case Err(e) => Some(e) case Ok(_) => None;
            match step
            case Create(id, parent, _) =>
              && (refused == Some(Integrity) <==> id in s.folders || (parent.Some? && parent.value !in s.folders))
              && refused != Some(NotFound)
            case Delete(id, team) =>
              && (refused == Some(NotFound) <==> !(id in s.folders && s.folders[id].team == team))
              && (refused == Some(Integrity)
                  <==> id in s.folders && s.folders[id].team == team && s.folders[id].parent == Some(id)
                       && exists x :: x in s.folders && x != id && s.folders[x].parent == Some(id))
            case Move(id, parent, team) =>
              && (refused == Some(NotFound) <==> !(id in s.folders && s.folders[id].team == team))
              && (refused == Some(Integrity)
                  <==> id in s.folders && s.folders[id].team == team && parent.Some? && parent.value !in s.folders)
    ensures Request(s, step).Err? ==> Next(s, step) == s
  {
  }

  /** A new folder has the parent and the team it was created with, below all of the parent's ancestors. */
  lemma CreateAddsFolder(s: Store, id: Id, parent: Option<Id>, team: nat)
    requires Forest(ParentsOf(s.folders)) && Linked(s)
    requires id !in s.folders && (parent.Some? ==> parent.value in s.folders)
    ensures var t := Next(s, Create(id, parent, team));
            && t.folders.Keys == s.folders.Keys + {id} && t.servers == s.servers
            && t.folders[id] == Folder(parent, team) && (forall x :: x in s.folders ==> t.folders[x] == s.folders[x])
            && Forest(ParentsOf(t.folders))
            && Chain(ParentsOf(t.folders), id)
               == if parent == None then [] else [parent.value] + Chain(ParentsOf(s.folders), parent.value)
  {
    var m, t := ParentsOf(s.folders), Next(s, Create(id, parent, team));
    var m' := ParentsOf(t.folders);
    assert m' == m[id := parent];
    CreateKeepsForest(m, id, parent);
    var above := if parent == None then [] else [parent.value] + Chain(m, parent.value);
    if parent.Some? {
      ChainAvoidsNew(m, id, parent, parent.value, Chain(m, parent.value));
      assert above[1..] == Chain(m, parent.value);
    }
    ChainUnique(m', id, Chain(m', id), above);
  }

  /** A move gives the folder the parent asked for and changes no other row, team or server. */
  lemma MoveSetsParent(s: Store, id: Id, parent: Option<Id>, team: nat)
    requires id in s.folders && s.folders[id].team == team && (parent.Some? ==> parent.value in s.folders)
    ensures Request(s, Move(id, parent, team)).Ok?
    ensures var t := Request(s, Move(id, parent, team)).value;
            && t.servers == s.servers && t.folders.Keys == s.folders.Keys
            && t.folders[id].parent == parent && t.folders[id].team == team
            && (forall x :: x in s.folders && x != id ==> t.folders[x] == s.folders[x])
            && ParentsOf(t.folders) == ParentsOf(s.folders)[id := parent]
  {
  }

  /** In a forest, a move to a safe parent puts the folder below that parent and all of its ancestors. */
  lemma MovedBelowParent(s: Store, id: Id, parent: Id, team: nat)
    requires Forest(ParentsOf(s.folders)) && id in s.folders && s.folders[id].team == team && parent in s.folders
    requires parent != id && id !in Chain(ParentsOf(s.folders), parent)
    ensures var t := Next(s, Move(id, Some(parent), team));
            && Forest(ParentsOf(t.folders))
            && Chain(ParentsOf(t.folders), id) == [parent] + Chain(ParentsOf(s.folders), parent)
  {
    var m, t := ParentsOf(s.folders), Next(s, Move(id, Some(parent), team));
    var m' := ParentsOf(t.folders);
    MoveSetsParent(s, id, Some(parent), team);
    MoveKeepsForest(m, id, Some(parent));
    MoveSpares(m, id, Some(parent), parent, Chain(m, parent));
    var above := [parent] + Chain(m, parent);
    assert above[1..] == Chain(m, parent);
    ChainUnique(m', id, Chain(m', id), above);
  }

  lemma ForestStep(s: Store, step: Step)
    requires Forest(ParentsOf(s.folders)) && Linked(s) && Sensible(s, step)
    ensures Forest(ParentsOf(Next(s, step).folders)) && Linked(Next(s, step))
  {
    var m := ParentsOf(s.folders);
    var t := Next(s, step);
    if Request(s, step).Ok? {
      match step
      case Create(id, parent, team) =>
        assert ParentsOf(t.folders) == m[id := parent];
        CreateKeepsForest(m, id, parent);
      case Delete(id, team) =>
        DeleteLeavesNoReference(s, id, team);
        DeleteIsContraction(m, id);
      case Move(id, parent, team) =>
        assert ParentsOf(t.folders) == m[id := parent];
        MoveKeepsForestIff(m, id, parent);
    }
  }

  /** Every run of creates, deletes and sensible moves keeps a forest with no dangling reference. */
  lemma {:induction false} ForestAlways(s: Store, steps: seq<Step>)
    requires Forest(ParentsOf(s.folders)) && Linked(s) && AllSensible(s, steps)
    ensures Forest(ParentsOf(Exec(s, steps).folders)) && Linked(Exec(s, steps))
    decreases |steps|
  {
    if steps != [] {
      ForestStep(s, steps[0]);
      ForestAlways(Next(s, steps[0]), steps[1..]);
    }
  }

  class FolderTables {
    var folders: map<Id, Folder>
    var servers: map<nat, Option<Id>>

    ghost function View(): Store
      reads this
    {
      Store(folders, servers)
    }

    constructor ()
      ensures View() == Store(map[], map[]) && Forest(ParentsOf(folders)) && Linked(View())
    {
      folders, servers := map[], map[];
    }

    method CreateFolder(id: Id, parent: Option<Id>, team: nat) returns (error: Option<Error>)
      modifies this`folders
      ensures Request(old(View()), Create(id, parent, team)) == if error == None then Ok(View()) else Err(error.value)
      ensures error.Some? ==> View() == old(View())
    {
      if id in folders || (parent.Some? && parent.value !in folders) {
        return Some(Integrity);
      }
      folders := folders[id := Folder(parent, team)];
      return None;
    }

    /** The servers' update, the children's update and the row's removal, in the source's order. */
    method DeleteFolder(id: Id, team: nat) returns (error: Option<Error>)
      modifies this
      ensures Request(old(View()), Delete(id, team)) == if error == None then Ok(View()) else Err(error.value)
      ensures error.Some? ==> View() == old(View())
    {
      if id !in folders || folders[id].team != team {
        return Some(NotFound);
      }
      var up := folders[id].parent;
      if up == Some(id) && exists x :: x in folders && x != id && folders[x].parent == Some(id) {
        return Some(Integrity);
      }
      servers := map v | v in servers :: if servers[v] == Some(id) then None else servers[v];
      folders := map x | x in folders ::
          if folders[x].parent == Some(id) then folders[x].(parent := up) else folders[x];
      folders := folders - {id};
      ghost var asked := Request(old(View()), Delete(id, team));
      assert folders == asked.value.folders && servers == asked.value.servers;
      return None;
    }

    method MoveFolder(id: Id, parent: Option<Id>, team: nat) returns (error: Option<Error>)
      modifies this`folders
      ensures Request(old(View()), Move(id, parent, team)) == if error == None then Ok(View()) else Err(error.value)
      ensures error.Some? ==> View() == old(View())
    {
      if id !in folders || folders[id].team != team {
        return Some(NotFound);
      }
      if parent.Some? && parent.value !in folders {
        return Some(Integrity);
      }
      folders := folders[id := folders[id].(parent := parent)];
      return None;
    }
  }
}
