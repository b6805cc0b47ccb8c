/** How a branch of a stage's code is named: by its place in the tree, so that a reformat keeps it. */
module BranchIds {
  import opened Decimals

  // Which of a node's suites or arms it is.
  datatype Kind = OfIf | OfElif(n: nat) | OfElse | OfTry | OfExcept(n: nat)

  // `SuiteAt` opens under statement `index` of its parent; `ArmAt` is an arm of that statement's choice `order`.
  datatype Id =
    | Root(name: string)
    | SuiteAt(parent: Id, index: nat, kind: Kind)
    | ArmAt(parent: Id, index: nat, order: nat, kind: Kind)

  function NextElif(kind: Kind): Kind {
    if kind.OfElif? then OfElif(kind.n + 1) else OfElif(0)
  }

  // ---------------------------------------------------------------- the id as text

  function KindText(kind: Kind): (text: string)
    ensures text != "" && '/' !in text && ':' !in text
  {
    match kind
    case OfIf => "if"
    case OfElif(n) => "elif" + Decimal(n)
    case OfElse => "else"
    case OfTry => "try"
    case OfExcept(n) => "except" + Decimal(n)
  }

  // What follows the statement's number: `:if`, or `:choice1:if` for an arm.
  function Label(id: Id): (text: string)
    requires !id.Root?
    ensures '/' !in text
  {
    if id.SuiteAt? then KindText(id.kind) else "choice" + Decimal(id.order) + ":" + KindText(id.kind)
  }

  function Segment(id: Id): (text: string)
    requires !id.Root?
    ensures '/' !in text
  {
    Decimal(id.index) + ":" + Label(id)
  }

  function Render(id: Id): string {
    if id.Root? then id.name else Render(id.parent) + "/" + Segment(id)
  }

  // Function names hold no slash: they are identifiers.
  predicate IsNamed(id: Id) {
    if id.Root? then '/' !in id.name else IsNamed(id.parent)
  }

  // Two texts cut at the first separator are the same only part by part.
  lemma {:induction false} SplitsAtFirst(c: char, a: string, b: string, x: string, y: string)
    requires a + [c] + b == x + [c] + y && c !in a && c !in x
    ensures a == x && b == y
  {
    var whole := a + [c] + b;
    assert whole[|a|] == c && whole[|x|] == c;
    assert forall i :: 0 <= i < |a| ==> whole[i] == a[i];
    assert forall i :: 0 <= i < |x| ==> whole[i] == x[i];
    assert |a| == |x|;
    assert a == whole[..|a|] && x == whole[..|x|];
    assert b == whole[|a| + 1..] && y == whole[|x| + 1..];
  }

  lemma {:induction false} SplitsAtLast(c: char, a: string, b: string, x: string, y: string)
    requires a + [c] + b == x + [c] + y && c !in b && c !in y
    ensures a == x && b == y
  {
    var whole := a + [c] + b;
    var other := x + [c] + y;
    assert whole[|a|] == c && other[|x|] == c;
    assert forall i :: |a| < i < |whole| ==> whole[i] == b[i - |a| - 1];
    assert forall i :: |x| < i < |other| ==> other[i] == y[i - |x| - 1];
    assert |a| == |x|;
    assert a == whole[..|a|] && x == whole[..|x|];
    assert b == whole[|a| + 1..] && y == whole[|x| + 1..];
  }

  lemma {:induction false} SameTail(head: string, a: string, b: string)
    requires head + a == head + b
    ensures a == b
  {
    assert (head + a)[|head|..] == a && (head + b)[|head|..] == b;
  }

  lemma {:induction false} KindsDiffer(a: Kind, b: Kind)
    requires KindText(a) == KindText(b)
    ensures a == b
  {
    FirstLetters(a);
    FirstLetters(b);
    assert |KindText(a)| == |KindText(b)|;
    if a.OfElif? && b.OfElif? {
      SameTail("elif", Decimal(a.n), Decimal(b.n));
      DecimalsDiffer(a.n, b.n);
    } else if a.OfExcept? && b.OfExcept? {
      SameTail("except", Decimal(a.n), Decimal(b.n));
      DecimalsDiffer(a.n, b.n);
    }
  }

  lemma {:induction false} FirstLetters(kind: Kind)
    ensures |KindText(kind)| >= 2
    ensures kind.OfIf? <==> KindText(kind)[0] == 'i'
    ensures kind.OfTry? <==> KindText(kind)[0] == 't'
    ensures kind.OfExcept? <==> KindText(kind)[1] == 'x'
    ensures KindText(kind)[1] == 'l' ==> |KindText(kind)| > 2
    ensures kind.OfElse? <==> KindText(kind)[1] == 'l' && KindText(kind)[2] == 's'
    ensures kind.OfElif? <==> KindText(kind)[1] == 'l' && KindText(kind)[2] == 'i'
    ensures KindText(kind)[0] != 'c'
  {
  }

  lemma {:induction false} LabelsDiffer(a: Id, b: Id)
    requires !a.Root? && !b.Root? && Label(a) == Label(b)
    ensures a.kind == b.kind && a.SuiteAt? == b.SuiteAt? && (a.ArmAt? ==> a.order == b.order)
  {
    OnlyArmsAreChoices(a);
    OnlyArmsAreChoices(b);
    if a.SuiteAt? {
      KindsDiffer(a.kind, b.kind);
    } else {
      var x, y := KindText(a.kind), KindText(b.kind);
      assert "choice" + Decimal(a.order) + ":" + x == ("choice" + Decimal(a.order)) + [':'] + x;
      assert "choice" + Decimal(b.order) + ":" + y == ("choice" + Decimal(b.order)) + [':'] + y;
      SplitsAtFirst(':', "choice" + Decimal(a.order), x, "choice" + Decimal(b.order), y);
      SameTail("choice", Decimal(a.order), Decimal(b.order));
      DecimalsDiffer(a.order, b.order);
      KindsDiffer(a.kind, b.kind);
    }
  }

  lemma {:induction false} OnlyArmsAreChoices(id: Id)
    requires !id.Root?
    ensures Label(id) != "" && (Label(id)[0] == 'c' <==> id.ArmAt?)
  {
    FirstLetters(id.kind);
  }

  lemma {:induction false} OnlyRootsHaveNoSlash(id: Id)
    requires IsNamed(id)
    ensures '/' in Render(id) <==> !id.Root?
  {
    if !id.Root? {
      assert Render(id)[|Render(id.parent)|] == '/';
    }
  }

  // Different places have different ids, as texts: nothing about a place is lost in writing it down.
  lemma {:induction false} IdsTellPlacesApart(a: Id, b: Id)
    requires IsNamed(a) && IsNamed(b) && Render(a) == Render(b)
    ensures a == b
    decreases a
  {
    OnlyRootsHaveNoSlash(a);
    OnlyRootsHaveNoSlash(b);
    if !a.Root? {
      assert Render(a) == Render(a.parent) + ['/'] + Segment(a);
      assert Render(b) == Render(b.parent) + ['/'] + Segment(b);
      SplitsAtLast('/', Render(a.parent), Segment(a), Render(b.parent), Segment(b));
      IdsTellPlacesApart(a.parent, b.parent);
      assert Segment(a) == Decimal(a.index) + [':'] + Label(a) && Segment(b) == Decimal(b.index) + [':'] + Label(b);
      SplitsAtFirst(':', Decimal(a.index), Label(a), Decimal(b.index), Label(b));
      DecimalsDiffer(a.index, b.index);
      LabelsDiffer(a, b);
    }
  }
}
