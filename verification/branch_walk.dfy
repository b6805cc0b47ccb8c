/** Finding every branch of a module's functions. The parser hands each node its position; here a node's
  position is the length of the text before it, so the walkers carry that text. */
module BranchWalk {
  import opened BranchIds
  import opened RowCode
  import opened Seqs

  // Where the branch's body starts, and for an arm where it ends. `header` is the line up to the body.
  datatype Branch =
    | SuiteBranch(id: Id, at: nat, header: string)
    | ArmBranch(id: Id, at: nat, end: nat)

  // A chain, with the text before it.
  datatype Place = Place(expr: Expr, before: string)

  // ---------------------------------------------------------------- what there is to find

  // The chains of an expression, each once, outermost first, a chain's tests before its arms.
  function Scan(e: Expr, before: string): (found: seq<Place>)
    ensures |found| == Chains(e)
    decreases e, 1
  {
    match e
    case Atom(_) => []
    case Paren(l, inner, r) => Scan(inner, before + l)
    case Binary(l, op, r) => Scan(l, before) + Scan(r, before + ExprText(l) + op)
    case Or(l, op, r) => Scan(l, before) + Scan(r, before + ExprText(l) + op)
    case Call(callee, l, arg, r) => Scan(arg, before + (callee + l))
    case Choice(b, g, t, h, o) =>
      var tested := before + ExprText(b) + g;
      [Place(e, before)] + (Scan(t, tested) + Scan(b, before) + ScanBelow(o, tested + ExprText(t) + h))
    case Deferred(_) => []
    case Record(_) => []
  }

  function ScanBelow(e: Expr, before: string): (found: seq<Place>)
    ensures |found| == ChainsBelow(e)
    decreases e, 2
  {
    match e
    case Paren(l, inner, r) => ScanBelow(inner, before + l)
    case Choice(b, g, t, h, o) =>
      var tested := before + ExprText(b) + g;
      Scan(t, tested) + Scan(b, before) + ScanBelow(o, tested + ExprText(t) + h)
    case _ => Scan(e, before)
  }

  // An arm is where its value is, inside any parentheses.
  function ArmOf(e: Expr, before: string, id: Id): Branch {
    if e.Paren? then ArmOf(e.inner, before + e.open, id)
    else ArmBranch(id, |before|, |before| + |ExprText(e)|)
  }

  // The arms of chain `order`, from the link `e` on, whose arm is `kind`.
  function ArmsFrom(e: Expr, before: string, parent: Id, index: nat, order: nat, kind: Kind): seq<Branch>
    decreases e, 0
  {
    if !e.Choice? then [] else
    [ArmOf(e.body, before, ArmAt(parent, index, order, kind))]
    + ArmsBelow(e.orelse, before + ExprText(e.body) + e.ifGap + ExprText(e.test) + e.elseGap, parent, index, order,
                kind)
  }

  function ArmsBelow(e: Expr, before: string, parent: Id, index: nat, order: nat, kind: Kind): seq<Branch>
    decreases e, 1
  {
    if e.Paren? && IsChain(e) then ArmsBelow(e.inner, before + e.open, parent, index, order, kind)
    else if e.Choice? then ArmsFrom(e, before, parent, index, order, NextElif(kind))
    else [ArmOf(e, before, ArmAt(parent, index, order, OfElse))]
  }

  // The arms of each of `places`, which are chains `n` and up.
  function Arms(places: seq<Place>, parent: Id, index: nat, n: nat): seq<Branch>
  {
    if places == [] then []
    else ArmsFrom(places[0].expr, places[0].before, parent, index, n, OfIf) + Arms(places[1..], parent, index, n + 1)
  }

  function Choices(e: Expr, before: string, parent: Id, index: nat): seq<Branch> {
    Arms(Scan(e, before), parent, index, 0)
  }

  function InStmt(s: Stmt, before: string, parent: Id, index: nat): seq<Branch> {
    match s
    case Simple(head, value, _) => Choices(value, before + head, parent, index)
    case If(head, test, body, orelse) =>
      var tested := before + head + ExprText(test);
      Choices(test, before + head, parent, index)
      + (InSuite(body, tested, SuiteAt(parent, index, OfIf))
         + InElif(orelse, tested + SuiteText(body), parent, index, OfIf))
    case Try(head, body, handlers, orelse) =>
      var tried := before + head + SuiteText(body);
      InSuite(body, before + head, SuiteAt(parent, index, OfTry))
      + (InHandlers(handlers, tried, parent, index, 0)
         + InElse(orelse, tried + HandlersText(handlers), parent, index))
    case Inside(_, head, value, _) => Choices(value, before + head, parent, index)
    case Definition(_) => []
  }

  function InElif(o: Orelse, before: string, parent: Id, index: nat, kind: Kind): seq<Branch>
    decreases o, 1
  {
    if o.Else? && IsElif(o.suite.block) then
      var s := o.suite.block.only;
      var tested := before + o.suite.gap + s.head + ExprText(s.test);
      InSuite(s.body, tested, SuiteAt(parent, index, NextElif(kind)))
      + InElif(s.orelse, tested + SuiteText(s.body), parent, index, NextElif(kind))
    else InElse(o, before, parent, index)
  }

  function InElse(o: Orelse, before: string, parent: Id, index: nat): seq<Branch>
    decreases o, 0
  {
    if o.NoElse? then [] else InSuite(o.suite, before, SuiteAt(parent, index, OfElse))
  }

  function InHandlers(hs: Handlers, before: string, parent: Id, index: nat, position: nat): seq<Branch> {
    match hs
    case NoHandlers => []
    case Handler(head, suite, rest) =>
      InSuite(suite, before + head, SuiteAt(parent, index, OfExcept(position)))
      + InHandlers(rest, before + head + SuiteText(suite), parent, index, position + 1)
  }

  function InSuite(s: Suite, before: string, id: Id): seq<Branch> {
    [SuiteBranch(id, |before + s.gap|, LineBefore(before + s.gap))] + InBlock(s.block, before + s.gap, id, 0)
  }

  function InBlock(b: Block, before: string, parent: Id, index: nat): seq<Branch> {
    match b
    case Last(s) => InStmt(s, before, parent, index)
    case More(s, rest) => InStmt(s, before, parent, index) + InBlock(rest, before + StmtText(s), parent, index + 1)
  }

  function InItem(item: Item, before: string): seq<Branch> {
    match item
    case Define(f) => InBlock(f.body, before + f.head, Root(f.name), 0)
    case Top(_, _) => []
  }

  function InModule(items: seq<Item>, before: string): seq<Branch> {
    if items == [] then [] else InItem(items[0], before) + InModule(items[1..], before + ItemText(items[0]))
  }

  // ---------------------------------------------------------------- the walk

  // The node the parser sees: parentheses are no node.
  function Bare(e: Expr): (r: Expr)
    ensures !r.Paren? && (r == e || r < e)
  {
    if e.Paren? then Bare(e.inner) else e
  }

  function Opening(e: Expr): string {
    if e.Paren? then e.open + Opening(e.inner) else ""
  }

  lemma {:induction false} ParenthesesAreNoNode(e: Expr, before: string, parent: Id, index: nat, order: nat, kind: Kind)
    ensures IsChain(e) <==> Bare(e).Choice?
    ensures ScanBelow(e, before) == ScanBelow(Bare(e), before + Opening(e))
    ensures ArmsBelow(e, before, parent, index, order, kind)
            == ArmsBelow(Bare(e), before + Opening(e), parent, index, order, kind)
  {
    if e.Paren? {
      ParenthesesAreNoNode(e.inner, before + e.open, parent, index, order, kind);
      assert before + e.open + Opening(e.inner) == before + Opening(e);
    } else {
      assert before + Opening(e) == before;
    }
  }

  lemma {:induction false} NoChainBelow(e: Expr, before: string)
    requires !IsChain(e)
    ensures ScanBelow(e, before) == Scan(e, before)
  {
    if e.Paren? { NoChainBelow(e.inner, before + e.open); }
  }

  function ScanAll(places: seq<Place>): seq<Place> {
    if places == [] then [] else Scan(places[0].expr, places[0].before) + ScanAll(places[1..])
  }

  lemma {:induction false} ScanJoins(a: seq<Place>, b: seq<Place>)
    ensures ScanAll(a + b) == ScanAll(a) + ScanAll(b)
  {
    if a == [] {
      assert a + b == b;
    } else {
      ScanJoins(a[1..], b);
      assert (a + b)[0] == a[0] && (a + b)[1..] == a[1..] + b;
      Associates(Scan(a[0].expr, a[0].before), ScanAll(a[1..]), ScanAll(b));
    }
  }

  lemma {:induction false} ScanOneMore(places: seq<Place>, place: Place)
    ensures ScanAll(places + [place]) == ScanAll(places) + Scan(place.expr, place.before)
  {
    assert Scan(place.expr, place.before) + ScanAll([]) == Scan(place.expr, place.before);
    ScanJoins(places, [place]);
    assert [place][1..] == [];
  }

  lemma {:induction false} ScanTwoMore(parts: seq<Place>, node: Expr, before: string)
    requires node.Choice?
    ensures var tested := before + ExprText(node.body) + node.ifGap;
      ScanAll(parts) + ScanBelow(node, before)
      == ScanAll(parts + [Place(node.test, tested), Place(node.body, before)])
         + ScanBelow(node.orelse, tested + ExprText(node.test) + node.elseGap)
  {
    var tested := before + ExprText(node.body) + node.ifGap;
    var rest := ScanBelow(node.orelse, tested + ExprText(node.test) + node.elseGap);
    var one, two := Place(node.test, tested), Place(node.body, before);
    ScanOneMore(parts, one);
    ScanOneMore(parts + [one], two);
    assert parts + [one] + [two] == parts + [one, two];
    AssociatesFour(ScanAll(parts), Scan(node.test, tested), Scan(node.body, before), rest);
    Associates(Scan(node.test, tested), Scan(node.body, before), rest);
  }

  // A choice in an `else` belongs to the chain it is in: the parts are every test and every value of all its links.
  method ReadChainParts(chain: Place) returns (parts: seq<Place>)
    requires chain.expr.Choice?
    ensures forall part :: part in parts ==> part.expr < chain.expr
    ensures [chain] + ScanAll(parts) == Scan(chain.expr, chain.before)
  {
    parts := [];
    var node, before := chain.expr, chain.before;
    ghost var whole := ScanBelow(node, before);
    while true
      invariant node.Choice? && (node == chain.expr || node < chain.expr)
      invariant forall part :: part in parts ==> part.expr < chain.expr
      invariant ScanAll(parts) + ScanBelow(node, before) == whole
      decreases node
    {
      var tested := before + ExprText(node.body) + node.ifGap;
      var rest := tested + ExprText(node.test) + node.elseGap;
      ScanTwoMore(parts, node, before);
      parts := parts + [Place(node.test, tested), Place(node.body, before)];
      ParenthesesAreNoNode(node.orelse, rest, Root(""), 0, 0, OfIf);
      var inner := Place(Bare(node.orelse), rest + Opening(node.orelse));
      if !inner.expr.Choice? {
        ScanOneMore(parts, inner);
        parts := parts + [inner];
        return;
      }
      node, before := inner.expr, inner.before;
    }
  }

  method ScanChoices(node: Place, found: seq<Place>) returns (more: seq<Place>)
    ensures more == found + Scan(node.expr, node.before)
    decreases node.expr
  {
    var e, before := node.expr, node.before;
    match e
    case Atom(_) => more := found;
    case Deferred(_) => more := found;
    case Record(_) => more := found;
    case Paren(l, inner, r) => more := ScanChoices(Place(inner, before + l), found);
    case Call(callee, l, arg, r) => more := ScanChoices(Place(arg, before + (callee + l)), found);
    case Binary(l, op, r) =>
      more := ScanChoices(Place(l, before), found);
      more := ScanChoices(Place(r, before + ExprText(l) + op), more);
    case Or(l, op, r) =>
      more := ScanChoices(Place(l, before), found);
      more := ScanChoices(Place(r, before + ExprText(l) + op), more);
    case Choice(_, _, _, _, _) =>
      var parts := ReadChainParts(node);
      more := ScanParts(node, parts, found + [node]);
      Associates(found, [node], ScanAll(parts));
  }

  method ScanParts(chain: Place, parts: seq<Place>, found: seq<Place>) returns (more: seq<Place>)
    requires forall part :: part in parts ==> part.expr < chain.expr
    ensures more == found + ScanAll(parts)
    decreases chain.expr, 0
  {
    more := found;
    for i := 0 to |parts|
      invariant more == found + ScanAll(parts[..i])
    {
      var part := parts[i];
      assert part in parts;
      assert parts[..i + 1] == parts[..i] + [part];
      ScanOneMore(parts[..i], part);
      Associates(found, ScanAll(parts[..i]), Scan(part.expr, part.before));
      more := ScanChoices(part, more);
    }
    assert parts[..|parts|] == parts;
  }

  ghost predicate AreChains(places: seq<Place>) {
    forall i :: 0 <= i < |places| ==> places[i].expr.Choice?
  }

  lemma {:induction false} ScanFindsChains(e: Expr, before: string)
    ensures AreChains(Scan(e, before))
    ensures AreChains(ScanBelow(e, before))
    decreases e
  {
    match e
    case Atom(_) =>
    case Deferred(_) =>
    case Record(_) =>
    case Paren(l, inner, r) => ScanFindsChains(inner, before + l);
    case Call(callee, l, arg, r) => ScanFindsChains(arg, before + (callee + l));
    case Binary(l, op, r) =>
      ScanFindsChains(l, before);
      ScanFindsChains(r, before + ExprText(l) + op);
    case Or(l, op, r) =>
      ScanFindsChains(l, before);
      ScanFindsChains(r, before + ExprText(l) + op);
    case Choice(b, g, t, h, o) =>
      var tested := before + ExprText(b) + g;
      ScanFindsChains(t, tested);
      ScanFindsChains(b, before);
      ScanFindsChains(o, tested + ExprText(t) + h);
  }

  lemma {:induction false} ArmsJoin(a: seq<Place>, b: seq<Place>, parent: Id, index: nat, n: nat)
    ensures Arms(a + b, parent, index, n) == Arms(a, parent, index, n) + Arms(b, parent, index, n + |a|)
  {
    if a == [] {
      assert a + b == b;
    } else {
      assert (a + b)[0] == a[0] && (a + b)[1..] == a[1..] + b;
      ArmsJoin(a[1..], b, parent, index, n + 1);
      Associates(ArmsFrom(a[0].expr, a[0].before, parent, index, n, OfIf), Arms(a[1..], parent, index, n + 1),
                 Arms(b, parent, index, n + |a|));
    }
  }

  lemma {:induction false} ItemFirst(found: seq<Branch>, items: seq<Item>, i: nat, before: string)
    requires i < |items|
    ensures found + InModule(items[i..], before)
         == (found + InItem(items[i], before)) + InModule(items[i + 1..], before + ItemText(items[i]))
  {
    assert items[i..][0] == items[i] && items[i..][1..] == items[i + 1..];
    Associates(found, InItem(items[i], before), InModule(items[i + 1..], before + ItemText(items[i])));
  }

  class BranchWalker {
    var found: seq<Branch>

    constructor ()
      ensures found == []
    {
      found := [];
    }

    method WalkModule(items: seq<Item>)
      modifies this
      ensures found == old(found) + InModule(items, "")
    {
      var before := "";
      assert items[0..] == items;
      for i := 0 to |items|
        invariant found + InModule(items[i..], before) == old(found) + InModule(items, "")
      {
        ItemFirst(found, items, i, before);
        WalkItem(items[i], before);
        before := before + ItemText(items[i]);
      }
    }

    method WalkItem(item: Item, before: string)
      modifies this
      ensures found == old(found) + InItem(item, before)
    {
      match item {
        case Define(f) => WalkBody(f.body, before + f.head, Root(f.name));
        case Top(_, _) => assert found + [] == found;
      }
    }

    method WalkBody(body: Block, before: string, path: Id)
      modifies this
      ensures found == old(found) + InBlock(body, before, path, 0)
      decreases body, 1
    {
      var rest, index, at := body, 0, before;
      while true
        invariant rest == body || rest < body
        invariant found + InBlock(rest, at, path, index) == old(found) + InBlock(body, before, path, 0)
        decreases rest
      {
        var node := if rest.Last? then rest.only else rest.first;
        WalkStmt(node, at, path, index);
        if rest.Last? {
          return;
        }
        rest, index, at := rest.rest, index + 1, at + StmtText(node);
      }
    }

    method WalkStmt(node: Stmt, before: string, path: Id, index: nat)
      modifies this
      ensures found == old(found) + InStmt(node, before, path, index)
      decreases node
    {
      WalkChoices(node, before, path, index);
      StatementIsItsParts(old(found), node, before, path, index);
      if node.If? {
        WalkIf(node, before, path, index, OfIf);
      } else if node.Try? {
        WalkTry(node, before, path, index);
      }
    }

    // The suites of an if and of the elifs below it. Only the statement itself has its choices walked.
    method WalkIf(node: Stmt, before: string, path: Id, index: nat, kind: Kind)
      requires node.If?
      modifies this
      ensures found == old(found) + SuitesOfIf(node, before, path, index, kind)
      decreases node, 0
    {
      var tested := before + node.head + ExprText(node.test);
      ghost var first := found;
      var rest := tested + SuiteText(node.body);
      Open(node.body, tested, SuiteAt(path, index, kind));
      ghost var below := InElif(node.orelse, rest, path, index, kind);
      Associates(first, InSuite(node.body, tested, SuiteAt(path, index, kind)), below);
      assert first + SuitesOfIf(node, before, path, index, kind) == found + below;
      if node.orelse.NoElse? {
        assert found + [] == found;
        return;
      }
      var suite := node.orelse.suite;
      if suite.block.Last? && suite.block.only.If? {
        assert below == SuitesOfIf(suite.block.only, rest + suite.gap, path, index, NextElif(kind));
        WalkIf(suite.block.only, rest + suite.gap, path, index, NextElif(kind));
        return;
      }
      assert below == InElse(node.orelse, rest, path, index);
      assert below == InSuite(suite, rest, SuiteAt(path, index, OfElse));
      Open(suite, rest, SuiteAt(path, index, OfElse));
    }

    method WalkTry(node: Stmt, before: string, path: Id, index: nat)
      requires node.Try?
      modifies this
      ensures found == old(found) + InStmt(node, before, path, index)
      decreases node, 0
    {
      var tried := before + node.head + SuiteText(node.body);
      var at := tried + HandlersText(node.handlers);
      AssociatesFour(found, InSuite(node.body, before + node.head, SuiteAt(path, index, OfTry)),
                     InHandlers(node.handlers, tried, path, index, 0), InElse(node.orelse, at, path, index));
      Open(node.body, before + node.head, SuiteAt(path, index, OfTry));
      WalkHandlers(node.handlers, tried, path, index);
      if node.orelse.Else? {
        Open(node.orelse.suite, at, SuiteAt(path, index, OfElse));
      } else {
        assert found + [] == found;
      }
    }

    method WalkHandlers(handlers: Handlers, before: string, path: Id, index: nat)
      modifies this
      ensures found == old(found) + InHandlers(handlers, before, path, index, 0)
      decreases handlers, 0
    {
      var hs, position, at := handlers, 0, before;
      while hs.Handler?
        invariant hs == handlers || hs < handlers
        invariant found + InHandlers(hs, at, path, index, position)
            == old(found) + InHandlers(handlers, before, path, index, 0)
        decreases hs
      {
        Associates(found, InSuite(hs.suite, at + hs.head, SuiteAt(path, index, OfExcept(position))),
                   InHandlers(hs.rest, at + hs.head + SuiteText(hs.suite), path, index, position + 1));
        Open(hs.suite, at + hs.head, SuiteAt(path, index, OfExcept(position)));
        hs, position, at := hs.rest, position + 1, at + hs.head + SuiteText(hs.suite);
      }
      assert found + [] == found;
    }

    method Open(suite: Suite, before: string, id: Id)
      modifies this
      ensures found == old(found) + InSuite(suite, before, id)
      decreases suite
    {
      var at := before + suite.gap;
      found := found + [SuiteBranch(id, |at|, LineBefore(at))];
      WalkBody(suite.block, at, id);
    }

    // Every choice the statement itself evaluates.
    method WalkChoices(node: Stmt, before: string, path: Id, index: nat)
      modifies this
      ensures found == old(found) + OwnChoices(node, before, path, index)
      decreases node, 0
    {
      if node.Definition? || node.Try? {
        assert found + [] == found;
        return;
      }
      var e := if node.Simple? then node.value else if node.If? then node.test else node.value;
      var chains := ScanChoices(Place(e, before + node.head), []);
      ScanFindsChains(e, before + node.head);
      assert chains == Scan(e, before + node.head);
      assert OwnChoices(node, before, path, index) == Choices(e, before + node.head, path, index);
      OpenAllArms(chains, path, index);
    }

    method OpenAllArms(chains: seq<Place>, path: Id, index: nat)
      requires AreChains(chains)
      modifies this
      ensures found == old(found) + Arms(chains, path, index, 0)
    {
      assert chains[0..] == chains;
      for order := 0 to |chains|
        invariant found + Arms(chains[order..], path, index, order) == old(found) + Arms(chains, path, index, 0)
      {
        var chain := chains[order];
        assert chains[order..][0] == chain && chains[order..][1..] == chains[order + 1..];
        Associates(found, ArmsFrom(chain.expr, chain.before, path, index, order, OfIf),
                   Arms(chains[order + 1..], path, index, order + 1));
        OpenArms(chain, path, index, order);
      }
    }

    method OpenArms(chain: Place, path: Id, index: nat, order: nat)
      requires chain.expr.Choice?
      modifies this
      ensures found == old(found) + ArmsFrom(chain.expr, chain.before, path, index, order, OfIf)
    {
      var node, before, kind := chain.expr, chain.before, OfIf;
      while true
        invariant node.Choice?
        invariant found + ArmsFrom(node, before, path, index, order, kind)
          == old(found) + ArmsFrom(chain.expr, chain.before, path, index, order, OfIf)
        decreases node
      {
        ghost var most := found;
        var rest := before + ExprText(node.body) + node.ifGap + ExprText(node.test) + node.elseGap;
        var arm := ArmOf(node.body, before, ArmAt(path, index, order, kind));
        Associates(most, [arm], ArmsBelow(node.orelse, rest, path, index, order, kind));
        found := found + [arm];
        ParenthesesAreNoNode(node.orelse, rest, path, index, order, kind);
        var inner := Place(Bare(node.orelse), rest + Opening(node.orelse));
        if !inner.expr.Choice? {
          found := found + [ArmOf(inner.expr, inner.before, ArmAt(path, index, order, OfElse))];
          return;
        }
        node, before, kind := inner.expr, inner.before, NextElif(kind);
      }
    }
  }

  lemma {:induction false} StatementIsItsParts(found: seq<Branch>, node: Stmt, before: string, path: Id, index: nat)
    ensures !node.If? && !node.Try? ==> InStmt(node, before, path, index) == OwnChoices(node, before, path, index)
    ensures node.If? ==>
      found + OwnChoices(node, before, path, index) + SuitesOfIf(node, before, path, index, OfIf)
      == found + InStmt(node, before, path, index)
    ensures node.Try? ==> found + OwnChoices(node, before, path, index) == found
  {
    if node.If? {
      Associates(found, OwnChoices(node, before, path, index), SuitesOfIf(node, before, path, index, OfIf));
    }
  }

  function SuitesOfIf(node: Stmt, before: string, path: Id, index: nat, kind: Kind): seq<Branch>
    requires node.If?
  {
    var tested := before + node.head + ExprText(node.test);
    InSuite(node.body, tested, SuiteAt(path, index, kind))
    + InElif(node.orelse, tested + SuiteText(node.body), path, index, kind)
  }

  function OwnChoices(node: Stmt, before: string, path: Id, index: nat): seq<Branch> {
    match node
    case Simple(head, value, _) => Choices(value, before + head, path, index)
    case If(head, test, _, _) => Choices(test, before + head, path, index)
    case Inside(_, head, value, _) => Choices(value, before + head, path, index)
    case Try(_, _, _, _) => []
    case Definition(_) => []
  }
}
