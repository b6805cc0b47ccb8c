/** No two branches of a module share an id, whatever is nested in whatever, so long as its functions
  have names of their own. */
module BranchNames {
  import opened BranchIds
  import opened RowCode
  import opened BranchWalk

  function Depth(id: Id): nat {
    if id.Root? then 0 else 1 + Depth(id.parent)
  }

  // The place on the way down to `id` that is `depth` deep; `id` itself when it is not that deep.
  function Top(id: Id, depth: nat): Id {
    if Depth(id) <= depth then id else Top(id.parent, depth)
  }

  // How far along an if/elif/else chain a kind is.
  predicate From(kind: Kind, first: Kind) {
    kind.OfElse? || (if kind.OfElif? then (first.OfElif? ==> kind.n >= first.n) else kind == first)
  }

  predicate IsArmAt(id: Id, parent: Id, index: nat) { id.ArmAt? && id.parent == parent && id.index == index }

  predicate IsSuiteAt(id: Id, parent: Id, index: nat) { id.SuiteAt? && id.parent == parent && id.index == index }

  // Sets of places: one alone, the links of a chain from one on, and so on.
  datatype Places =
    | Only(id: Id)
    | Links(parent: Id, index: nat, order: nat, kind: Kind)
    | ArmsAt(parent: Id, index: nat, order: nat)
    | SuitesAt(parent: Id, index: nat, kind: Kind)
    | HandlersAt(parent: Id, index: nat, position: nat)
    | AfterTry(parent: Id, index: nat)
    | AnySuiteAt(parent: Id, index: nat)
    | Under(parent: Id, index: nat)
    | After(parent: Id, index: nat)
    | SelfOrBelow(id: Id)
    | Named(fs: seq<Function>)

  ghost predicate Covers(p: Places, id: Id) {
    match p
    case Only(x) => id == x
    case Links(parent, index, order, kind) => IsArmAt(id, parent, index) && id.order == order && From(id.kind, kind)
    case ArmsAt(parent, index, order) => IsArmAt(id, parent, index) && id.order >= order
    case SuitesAt(parent, index, kind) => IsSuiteAt(id, parent, index) && From(id.kind, kind)
    case HandlersAt(parent, index, position) =>
      IsSuiteAt(id, parent, index) && id.kind.OfExcept? && id.kind.n >= position
    case AfterTry(parent, index) => IsSuiteAt(id, parent, index) && !id.kind.OfTry?
    case AnySuiteAt(parent, index) => IsSuiteAt(id, parent, index)
    case Under(parent, index) => IsArmAt(id, parent, index) || IsSuiteAt(id, parent, index)
    case After(parent, index) => !id.Root? && id.parent == parent && id.index >= index
    case SelfOrBelow(x) => id == x || (!id.Root? && id.parent == x)
    case Named(fs) => id.Root? && HasName(fs, id.name)
  }

  ghost predicate HasName(fs: seq<Function>, name: string) {
    exists i :: 0 <= i < |fs| && fs[i].name == name
  }

  // Each branch lies in a place, `depth` deep, that is one of `p`.
  ghost predicate LieIn(branches: seq<Branch>, depth: nat, p: Places) {
    branches == [] || (Covers(p, Top(branches[0].id, depth)) && LieIn(branches[1..], depth, p))
  }

  predicate Distinct(branches: seq<Branch>) {
    branches == [] || (IsAbsent(branches[0].id, branches[1..]) && Distinct(branches[1..]))
  }

  predicate IsAbsent(id: Id, branches: seq<Branch>) {
    branches == [] || (branches[0].id != id && IsAbsent(id, branches[1..]))
  }

  lemma {:induction false} AbsentFromBoth(id: Id, a: seq<Branch>, b: seq<Branch>)
    requires IsAbsent(id, a) && IsAbsent(id, b)
    ensures IsAbsent(id, a + b)
  {
    if a == [] {
      assert a + b == b;
    } else {
      AbsentFromBoth(id, a[1..], b);
      assert (a + b)[1..] == a[1..] + b;
    }
  }

  lemma {:induction false} AbsentElsewhere(id: Id, b: seq<Branch>, depth: nat, q: Places)
    requires LieIn(b, depth, q) && !Covers(q, Top(id, depth))
    ensures IsAbsent(id, b)
  {
    if b != [] { AbsentElsewhere(id, b[1..], depth, q); }
  }

  lemma {:induction false} JoinStaysDistinct(a: seq<Branch>, b: seq<Branch>, depth: nat, p: Places, q: Places)
    requires Distinct(a) && Distinct(b) && LieIn(a, depth, p) && LieIn(b, depth, q)
    requires forall id :: Covers(p, id) ==> !Covers(q, id)
    ensures Distinct(a + b)
  {
    if a == [] {
      assert a + b == b;
    } else {
      JoinStaysDistinct(a[1..], b, depth, p, q);
      AbsentElsewhere(a[0].id, b, depth, q);
      AbsentFromBoth(a[0].id, a[1..], b);
      assert (a + b)[1..] == a[1..] + b;
    }
  }

  lemma {:induction false} LieInMore(a: seq<Branch>, depth: nat, p: Places, q: Places)
    requires LieIn(a, depth, p)
    requires forall id :: Covers(p, id) ==> Covers(q, id)
    ensures LieIn(a, depth, q)
  {
    if a != [] { LieInMore(a[1..], depth, p, q); }
  }

  lemma {:induction false} JoinLiesIn(a: seq<Branch>, b: seq<Branch>, depth: nat, p: Places, q: Places, r: Places)
    requires LieIn(a, depth, p) && LieIn(b, depth, q)
    requires forall id :: Covers(p, id) || Covers(q, id) ==> Covers(r, id)
    ensures LieIn(a + b, depth, r)
  {
    if a == [] {
      assert a + b == b;
      LieInMore(b, depth, q, r);
    } else {
      JoinLiesIn(a[1..], b, depth, p, q, r);
      assert (a + b)[1..] == a[1..] + b;
    }
  }

  // Both at once.
  lemma {:induction false} Together(a: seq<Branch>, b: seq<Branch>, depth: nat, p: Places, q: Places, r: Places)
    requires Distinct(a) && Distinct(b) && LieIn(a, depth, p) && LieIn(b, depth, q)
    requires forall id :: Covers(p, id) ==> !Covers(q, id)
    requires forall id :: Covers(p, id) || Covers(q, id) ==> Covers(r, id)
    ensures Distinct(a + b) && LieIn(a + b, depth, r)
  {
    JoinStaysDistinct(a, b, depth, p, q);
    JoinLiesIn(a, b, depth, p, q, r);
  }

  lemma {:induction false} ArmIsThere(e: Expr, before: string, id: Id)
    ensures ArmOf(e, before, id).id == id
  {
    if e.Paren? { ArmIsThere(e.inner, before + e.open, id); }
  }

  lemma {:induction false} ArmsOfOneChain(e: Expr, before: string, parent: Id, index: nat, order: nat, kind: Kind)
    requires kind.OfIf? || kind.OfElif?
    ensures Distinct(ArmsFrom(e, before, parent, index, order, kind))
    ensures LieIn(ArmsFrom(e, before, parent, index, order, kind), Depth(parent) + 1,
                  Links(parent, index, order, kind))
    decreases e, 0
  {
    if e.Choice? {
      var id := ArmAt(parent, index, order, kind);
      ArmIsThere(e.body, before, id);
      var rest := before + ExprText(e.body) + e.ifGap + ExprText(e.test) + e.elseGap;
      ArmsAfterOne(e.orelse, rest, parent, index, order, kind);
      Together([ArmOf(e.body, before, id)], ArmsBelow(e.orelse, rest, parent, index, order, kind), Depth(parent) + 1,
               Only(id),
               Links(parent, index, order, NextElif(kind)),
               Links(parent, index, order, kind));
    }
  }

  lemma {:induction false} ArmsAfterOne(e: Expr, before: string, parent: Id, index: nat, order: nat, kind: Kind)
    requires kind.OfIf? || kind.OfElif?
    ensures Distinct(ArmsBelow(e, before, parent, index, order, kind))
    ensures LieIn(ArmsBelow(e, before, parent, index, order, kind), Depth(parent) + 1,
                  Links(parent, index, order, NextElif(kind)))
    decreases e, 1
  {
    if e.Paren? && IsChain(e) {
      ArmsAfterOne(e.inner, before + e.open, parent, index, order, kind);
    } else if e.Choice? {
      ArmsOfOneChain(e, before, parent, index, order, NextElif(kind));
    } else {
      ArmIsThere(e, before, ArmAt(parent, index, order, OfElse));
      assert ArmsBelow(e, before, parent, index, order, kind)
          == [ArmOf(e, before, ArmAt(parent, index, order, OfElse))];
    }
  }

  lemma {:induction false} ArmsAreDistinct(places: seq<Place>, parent: Id, index: nat, n: nat)
    ensures Distinct(Arms(places, parent, index, n))
    ensures LieIn(Arms(places, parent, index, n), Depth(parent) + 1, ArmsAt(parent, index, n))
  {
    if places != [] {
      ArmsOfOneChain(places[0].expr, places[0].before, parent, index, n, OfIf);
      ArmsAreDistinct(places[1..], parent, index, n + 1);
      Together(ArmsFrom(places[0].expr, places[0].before, parent, index, n, OfIf),
               Arms(places[1..], parent, index, n + 1),
               Depth(parent) + 1,
               Links(parent, index, n, OfIf),
               ArmsAt(parent, index, n + 1),
               ArmsAt(parent, index, n));
    }
  }

  lemma {:induction false} ChoicesAreDistinct(e: Expr, before: string, parent: Id, index: nat)
    ensures Distinct(Choices(e, before, parent, index))
    ensures LieIn(Choices(e, before, parent, index), Depth(parent) + 1, ArmsAt(parent, index, 0))
    ensures LieIn(Choices(e, before, parent, index), Depth(parent) + 1, Under(parent, index))
  {
    ArmsAreDistinct(Scan(e, before), parent, index, 0);
    LieInMore(Choices(e, before, parent, index), Depth(parent) + 1, ArmsAt(parent, index, 0), Under(parent, index));
  }

  lemma {:induction false} StmtIsDistinct(s: Stmt, before: string, parent: Id, index: nat)
    ensures Distinct(InStmt(s, before, parent, index))
    ensures LieIn(InStmt(s, before, parent, index), Depth(parent) + 1,
                  Under(parent, index))
    decreases s, 0
  {
    match s
    case Simple(head, value, _) => ChoicesAreDistinct(value, before + head, parent, index);
    case Inside(_, head, value, _) => ChoicesAreDistinct(value, before + head, parent, index);
    case Definition(_) =>
    case If(head, test, body, orelse) =>
      var tested := before + head + ExprText(test);
      var rest := tested + SuiteText(body);
      ChoicesAreDistinct(test, before + head, parent, index);
      SuiteIsDistinct(body, tested, SuiteAt(parent, index, OfIf));
      ElifIsDistinct(orelse, rest, parent, index, OfIf);
      IfPartsAreDistinct(Choices(test, before + head, parent, index),
                         InSuite(body, tested, SuiteAt(parent, index, OfIf)),
                         InElif(orelse, rest, parent, index, OfIf), parent, index);
    case Try(head, body, handlers, orelse) =>
      var tried := before + head + SuiteText(body);
      var rest := tried + HandlersText(handlers);
      SuiteIsDistinct(body, before + head, SuiteAt(parent, index, OfTry));
      HandlersAreDistinct(handlers, tried, parent, index, 0);
      ElseIsDistinct(orelse, rest, parent, index);
      TryPartsAreDistinct(InSuite(body, before + head, SuiteAt(parent, index, OfTry)),
                          InHandlers(handlers, tried, parent, index, 0), InElse(orelse, rest, parent, index),
                          parent, index);
  }

  lemma {:induction false} IfPartsAreDistinct(own: seq<Branch>, body: seq<Branch>, below: seq<Branch>, parent: Id,
                                              index: nat)
    requires Distinct(own) && Distinct(body) && Distinct(below)
    requires LieIn(own, Depth(parent) + 1, ArmsAt(parent, index, 0))
    requires LieIn(body, Depth(parent) + 1, Only(SuiteAt(parent, index, OfIf)))
    requires LieIn(below, Depth(parent) + 1, SuitesAt(parent, index, OfElif(0)))
    ensures Distinct(own + (body + below)) && LieIn(own + (body + below), Depth(parent) + 1, Under(parent, index))
  {
    Together(body, below, Depth(parent) + 1,
             Only(SuiteAt(parent, index, OfIf)), SuitesAt(parent, index, OfElif(0)), AnySuiteAt(parent, index));
    Together(own, body + below, Depth(parent) + 1,
             ArmsAt(parent, index, 0), AnySuiteAt(parent, index), Under(parent, index));
  }

  lemma {:induction false} TryPartsAreDistinct(body: seq<Branch>, handled: seq<Branch>, orelse: seq<Branch>, parent: Id,
                                               index: nat)
    requires Distinct(body) && Distinct(handled) && Distinct(orelse)
    requires LieIn(body, Depth(parent) + 1, Only(SuiteAt(parent, index, OfTry)))
    requires LieIn(handled, Depth(parent) + 1, HandlersAt(parent, index, 0))
    requires LieIn(orelse, Depth(parent) + 1, Only(SuiteAt(parent, index, OfElse)))
    ensures Distinct(body + (handled + orelse))
        && LieIn(body + (handled + orelse), Depth(parent) + 1, Under(parent, index))
  {
    Together(handled, orelse, Depth(parent) + 1,
             HandlersAt(parent, index, 0), Only(SuiteAt(parent, index, OfElse)), AfterTry(parent, index));
    Together(body, handled + orelse, Depth(parent) + 1,
             Only(SuiteAt(parent, index, OfTry)), AfterTry(parent, index), Under(parent, index));
  }

  lemma {:induction false} ElifIsDistinct(o: Orelse, before: string, parent: Id, index: nat, kind: Kind)
    requires kind.OfIf? || kind.OfElif?
    ensures Distinct(InElif(o, before, parent, index, kind))
    ensures LieIn(InElif(o, before, parent, index, kind), Depth(parent) + 1,
                  SuitesAt(parent, index, NextElif(kind)))
    decreases o, 1
  {
    if o.Else? && IsElif(o.suite.block) {
      var s := o.suite.block.only;
      var tested := before + o.suite.gap + s.head + ExprText(s.test);
      var next := NextElif(kind);
      SuiteIsDistinct(s.body, tested, SuiteAt(parent, index, next));
      ElifIsDistinct(s.orelse, tested + SuiteText(s.body), parent, index, next);
      Together(InSuite(s.body, tested, SuiteAt(parent, index, next)),
               InElif(s.orelse, tested + SuiteText(s.body), parent, index, next), Depth(parent) + 1,
               Only(SuiteAt(parent, index, next)),
               SuitesAt(parent, index, NextElif(next)),
               SuitesAt(parent, index, next));
      assert InElif(o, before, parent, index, kind)
          == InSuite(s.body, tested, SuiteAt(parent, index, next))
             + InElif(s.orelse, tested + SuiteText(s.body), parent, index, next);
    } else {
      ElseIsDistinct(o, before, parent, index);
      LieInMore(InElse(o, before, parent, index), Depth(parent) + 1,
                Only(SuiteAt(parent, index, OfElse)), SuitesAt(parent, index, NextElif(kind)));
    }
  }

  lemma {:induction false} ElseIsDistinct(o: Orelse, before: string, parent: Id, index: nat)
    ensures Distinct(InElse(o, before, parent, index))
    ensures LieIn(InElse(o, before, parent, index), Depth(parent) + 1, Only(SuiteAt(parent, index, OfElse)))
    decreases o, 0
  {
    if o.Else? {
      SuiteIsDistinct(o.suite, before, SuiteAt(parent, index, OfElse));
      assert InElse(o, before, parent, index) == InSuite(o.suite, before, SuiteAt(parent, index, OfElse));
    }
  }

  lemma {:induction false} HandlersAreDistinct(hs: Handlers, before: string, parent: Id, index: nat, position: nat)
    ensures Distinct(InHandlers(hs, before, parent, index, position))
    ensures LieIn(InHandlers(hs, before, parent, index, position), Depth(parent) + 1,
                  HandlersAt(parent, index, position))
    decreases hs, 0
  {
    if hs.NoHandlers? {
      assert InHandlers(hs, before, parent, index, position) == [];
    } else {
      var id := SuiteAt(parent, index, OfExcept(position));
      var here, rest := before + hs.head, before + hs.head + SuiteText(hs.suite);
      SuiteIsDistinct(hs.suite, here, id);
      HandlersAreDistinct(hs.rest, rest, parent, index, position + 1);
      OneHandlerMore(InSuite(hs.suite, here, id), InHandlers(hs.rest, rest, parent, index, position + 1),
                     parent, index, position);
      assert InHandlers(hs, before, parent, index, position)
          == InSuite(hs.suite, here, id) + InHandlers(hs.rest, rest, parent, index, position + 1);
    }
  }

  lemma {:induction false} OneHandlerMore(one: seq<Branch>, more: seq<Branch>, parent: Id, index: nat, position: nat)
    requires Distinct(one) && Distinct(more)
    requires LieIn(one, Depth(parent) + 1, Only(SuiteAt(parent, index, OfExcept(position))))
    requires LieIn(more, Depth(parent) + 1, HandlersAt(parent, index, position + 1))
    ensures Distinct(one + more)
    ensures LieIn(one + more, Depth(parent) + 1, HandlersAt(parent, index, position))
  {
    Together(one, more, Depth(parent) + 1,
             Only(SuiteAt(parent, index, OfExcept(position))),
             HandlersAt(parent, index, position + 1),
             HandlersAt(parent, index, position));
  }

  // A suite's branches are its own and those below it.
  lemma {:induction false} SuiteIsDistinct(s: Suite, before: string, id: Id)
    ensures Distinct(InSuite(s, before, id))
    ensures LieIn(InSuite(s, before, id), Depth(id), Only(id))
    decreases s, 0
  {
    var inside := InBlock(s.block, before + s.gap, id, 0);
    BlockIsDistinct(s.block, before + s.gap, id, 0);
    var own := [SuiteBranch(id, |before + s.gap|, LineBefore(before + s.gap))];
    Together(own, inside, Depth(id) + 1,
             Only(id),
             After(id, 0),
             SelfOrBelow(id));
    AllOneStepUp(own + inside, id, SelfOrBelow(id));
  }

  lemma {:induction false} AllOneStepUp(branches: seq<Branch>, id: Id, p: Places)
    requires LieIn(branches, Depth(id) + 1, p)
    requires forall x :: Covers(p, x) ==> x == id || (!x.Root? && x.parent == id)
    ensures LieIn(branches, Depth(id), Only(id))
  {
    if branches != [] {
      OneStepUp(branches[0].id, id);
      AllOneStepUp(branches[1..], id, p);
    }
  }

  lemma {:induction false} OneStepUp(x: Id, id: Id)
    requires var top := Top(x, Depth(id) + 1); top == id || (!top.Root? && top.parent == id)
    ensures Top(x, Depth(id)) == id
  {
    if Depth(x) > Depth(id) + 1 { OneStepUp(x.parent, id); }
  }

  lemma {:induction false} BlockIsDistinct(b: Block, before: string, parent: Id, index: nat)
    ensures Distinct(InBlock(b, before, parent, index))
    ensures LieIn(InBlock(b, before, parent, index), Depth(parent) + 1, After(parent, index))
    decreases b, 0
  {
    var s := if b.Last? then b.only else b.first;
    StmtIsDistinct(s, before, parent, index);
    if b.More? {
      BlockIsDistinct(b.rest, before + StmtText(s), parent, index + 1);
      Together(InStmt(s, before, parent, index), InBlock(b.rest, before + StmtText(s), parent, index + 1),
               Depth(parent) + 1,
               Under(parent, index),
               After(parent, index + 1),
               After(parent, index));
    } else {
      LieInMore(InStmt(s, before, parent, index), Depth(parent) + 1,
                Under(parent, index), After(parent, index));
    }
  }

  ghost predicate NamesDiffer(fs: seq<Function>) {
    forall i, j :: 0 <= i < j < |fs| ==> fs[i].name != fs[j].name
  }

  lemma {:induction false} DistinctMeans(branches: seq<Branch>)
    requires Distinct(branches)
    ensures forall i, j :: 0 <= i < j < |branches| ==> branches[i].id != branches[j].id
  {
    if branches != [] {
      DistinctMeans(branches[1..]);
      AbsentMeans(branches[0].id, branches[1..]);
    }
  }

  lemma {:induction false} AbsentMeans(id: Id, branches: seq<Branch>)
    requires IsAbsent(id, branches)
    ensures forall j :: 0 <= j < |branches| ==> branches[j].id != id
  {
    if branches != [] { AbsentMeans(id, branches[1..]); }
  }

  // Written out, the ids of a module's branches all differ.
  lemma {:induction false} EveryIdIsItsOwn(items: seq<Item>, before: string)
    requires NamesDiffer(Functions(items))
    requires forall f :: f in Functions(items) ==> '/' !in f.name
    ensures forall i, j :: 0 <= i < j < |InModule(items, before)| ==>
      Render(InModule(items, before)[i].id) != Render(InModule(items, before)[j].id)
  {
    var found := InModule(items, before);
    EveryBranchHasItsOwnId(items, before);
    DistinctMeans(found);
    IdsAreNamed(Functions(items), found);
    forall i, j | 0 <= i < j < |found|
      ensures Render(found[i].id) != Render(found[j].id)
    {
      if Render(found[i].id) == Render(found[j].id) {
        IdsTellPlacesApart(found[i].id, found[j].id);
      }
    }
  }

  lemma {:induction false} IdsAreNamed(fs: seq<Function>, found: seq<Branch>)
    requires forall f :: f in fs ==> '/' !in f.name
    requires LieIn(found, 0, Named(fs))
    ensures forall i :: 0 <= i < |found| ==> IsNamed(found[i].id)
  {
    if found != [] {
      NamedByItsRoot(found[0].id);
      IdsAreNamed(fs, found[1..]);
    }
  }

  lemma {:induction false} NamedByItsRoot(id: Id)
    ensures Top(id, 0).Root? && (IsNamed(id) <==> '/' !in Top(id, 0).name)
  {
    if !id.Root? { NamedByItsRoot(id.parent); }
  }

  // All the ids of a module differ.
  lemma {:induction false} EveryBranchHasItsOwnId(items: seq<Item>, before: string)
    requires NamesDiffer(Functions(items))
    ensures Distinct(InModule(items, before))
    ensures LieIn(InModule(items, before), 0, Named(Functions(items)))
  {
    if items != [] {
      var rest := before + ItemText(items[0]);
      NamesStillDiffer(items);
      EveryBranchHasItsOwnId(items[1..], rest);
      if items[0].Define? {
        FunctionIsApart(items[0].def, Functions(items[1..]), before, InModule(items[1..], rest));
      } else {
        assert InModule(items, before) == InModule(items[1..], rest) && Functions(items) == Functions(items[1..]);
      }
    }
  }

  lemma {:induction false} NamesStillDiffer(items: seq<Item>)
    requires items != [] && NamesDiffer(Functions(items))
    ensures NamesDiffer(Functions(items[1..]))
  {
    var fs, all := Functions(items[1..]), Functions(items);
    assert forall i :: 0 <= i < |fs| ==> fs[i] == all[|all| - |fs| + i];
  }

  lemma {:induction false} FunctionIsApart(f: Function, fs: seq<Function>, before: string, others: seq<Branch>)
    requires NamesDiffer([f] + fs) && Distinct(others) && LieIn(others, 0, Named(fs))
    ensures var all := InBlock(f.body, before + f.head, Root(f.name), 0) + others;
      Distinct(all) && LieIn(all, 0, Named([f] + fs))
  {
    var here := InBlock(f.body, before + f.head, Root(f.name), 0);
    BlockIsDistinct(f.body, before + f.head, Root(f.name), 0);
    AllOneStepUp(here, Root(f.name), After(Root(f.name), 0));
    forall id: Id | id.Root? && HasName(fs, id.name)
      ensures HasName([f] + fs, id.name) && id != Root(f.name)
    {
      var i :| 0 <= i < |fs| && fs[i].name == id.name;
      assert ([f] + fs)[0] == f && ([f] + fs)[i + 1].name == id.name;
    }
    assert ([f] + fs)[0] == f;
    Together(here, others, 0, Only(Root(f.name)), Named(fs), Named([f] + fs));
  }
}
