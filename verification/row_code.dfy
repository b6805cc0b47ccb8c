/** A stage's authored code, as it is written, and the same code with every branch reporting itself.
  The text between the parts (spaces, comments, newlines, `;`) may be anything: it is kept with the
  node it belongs to. */
module RowCode {
  import opened BranchIds

  datatype Expr =
    | Atom(text: string)
    | Paren(open: string, inner: Expr, close: string)
    | Binary(lhs: Expr, op: string, rhs: Expr)
    | Or(lhs: Expr, op: string, rhs: Expr)
    | Call(callee: string, open: string, arg: Expr, close: string)
    | Choice(body: Expr, ifGap: string, test: Expr, elseGap: string, orelse: Expr)   // body if test else orelse
    | Deferred(text: string)                                    // a lambda or a comprehension
    | Record(id: Id)                                            // never authored

  datatype Stmt =
    | Simple(head: string, value: Expr, tail: string)
    | If(head: string, test: Expr, body: Suite, orelse: Orelse)
    | Try(head: string, body: Suite, handlers: Handlers, orelse: Orelse)
    | Inside(way: Way, head: string, value: Expr, body: Suite)
    | Definition(text: string)                                  // def or class

  // How a body stands to the value in its head: run for each item of it, or once between entering and leaving it.
  datatype Way = For | With

  datatype Block = Last(only: Stmt) | More(first: Stmt, rest: Block)

  // `gap` runs from the header, its colon included, to the suite's first statement.
  datatype Suite = Suite(gap: string, block: Block)

  datatype Orelse = NoElse | Else(suite: Suite)

  datatype Handlers = NoHandlers | Handler(head: string, suite: Suite, rest: Handlers)

  // `head` runs from the end of the item before to the first statement of the body. `names` are those its
  // parameters and its own statements bind: within it they are no other thing.
  datatype Function = Function(name: string, head: string, names: set<string>, body: Block)

  // A module's own statements, in the order they run when it is loaded, with the names each binds. No other
  // is looked into for a `def`.
  datatype Item = Define(def: Function) | Top(stmt: Stmt, names: set<string>)

  function Functions(items: seq<Item>): seq<Function> {
    if items == [] then []
    else (if items[0].Define? then [items[0].def] else []) + Functions(items[1..])
  }

  // ---------------------------------------------------------------- as text

  function ExprText(e: Expr): string {
    match e
    case Atom(text) => text
    case Paren(l, inner, r) => l + ExprText(inner) + r
    case Binary(l, op, r) => ExprText(l) + op + ExprText(r)
    case Or(l, op, r) => ExprText(l) + op + ExprText(r)
    case Call(callee, l, arg, r) => (callee + l) + ExprText(arg) + r
    case Choice(b, g, t, h, o) => ExprText(b) + g + ExprText(t) + h + ExprText(o)
    case Deferred(text) => text
    case Record(id) => RecordText(id)
  }

  // The name the recorder's own method is put under, and a call of it.
  const RECORDER := "record_branch"

  function RecordText(id: Id): string { (RECORDER + "(") + Quoted(id) + ")" }

  function Quoted(id: Id): string { "\"" + Render(id) + "\"" }

  function StmtText(s: Stmt): string {
    match s
    case Simple(head, value, tail) => head + ExprText(value) + tail
    case If(head, test, body, orelse) => (head + ExprText(test)) + (SuiteText(body) + OrelseText(orelse))
    case Try(head, body, handlers, orelse) => head + (SuiteText(body) + (HandlersText(handlers) + OrelseText(orelse)))
    case Inside(_, head, value, body) => (head + ExprText(value)) + SuiteText(body)
    case Definition(text) => text
  }

  function BlockText(b: Block): string {
    match b
    case Last(s) => StmtText(s)
    case More(s, rest) => StmtText(s) + BlockText(rest)
  }

  function SuiteText(s: Suite): string { s.gap + BlockText(s.block) }

  function OrelseText(o: Orelse): string {
    if o.NoElse? then "" else SuiteText(o.suite)
  }

  function HandlersText(hs: Handlers): string {
    match hs
    case NoHandlers => ""
    case Handler(head, suite, rest) => head + (SuiteText(suite) + HandlersText(rest))
  }

  function ItemText(item: Item): string {
    match item
    case Define(f) => f.head + BlockText(f.body)
    case Top(s, _) => StmtText(s)
  }

  function ModuleText(items: seq<Item>): string {
    if items == [] then "" else ItemText(items[0]) + ModuleText(items[1..])
  }

  // ---------------------------------------------------------------- what may be authored

  // No call of the recorder, and no value that is no text.
  predicate IsAuthored(e: Expr) {
    match e
    case Atom(text) => text != ""
    case Paren(l, inner, r) => IsAuthored(inner)
    case Binary(l, op, r) => IsAuthored(l) && IsAuthored(r)
    case Or(l, op, r) => IsAuthored(l) && IsAuthored(r)
    case Call(callee, l, arg, r) => callee != RECORDER && IsAuthored(arg)
    case Choice(b, g, t, h, o) => IsAuthored(b) && IsAuthored(t) && IsAuthored(o)
    case Deferred(text) => text != ""
    case Record(id) => false
  }

  predicate StmtIsAuthored(s: Stmt) {
    match s
    case Simple(head, value, tail) => IsAuthored(value)
    case If(head, test, body, orelse) => IsAuthored(test) && SuiteIsAuthored(body) && OrelseIsAuthored(orelse)
    case Try(head, body, handlers, orelse) =>
      SuiteIsAuthored(body) && HandlersAreAuthored(handlers) && OrelseIsAuthored(orelse)
    case Inside(_, head, value, body) => IsAuthored(value) && SuiteIsAuthored(body)
    case Definition(text) => text != ""
  }

  predicate BlockIsAuthored(b: Block) {
    match b
    case Last(s) => StmtIsAuthored(s)
    case More(s, rest) => StmtIsAuthored(s) && BlockIsAuthored(rest)
  }

  predicate SuiteIsAuthored(s: Suite) { BlockIsAuthored(s.block) }

  predicate OrelseIsAuthored(o: Orelse) { o.NoElse? || SuiteIsAuthored(o.suite) }

  predicate HandlersAreAuthored(hs: Handlers) {
    hs.NoHandlers? || (SuiteIsAuthored(hs.suite) && HandlersAreAuthored(hs.rest))
  }

  predicate ItemIsAuthored(item: Item) {
    match item
    case Define(f) => BlockIsAuthored(f.body)
    case Top(s, _) => StmtIsAuthored(s)
  }

  ghost predicate AreAuthored(fs: seq<Function>) {
    forall f :: f in fs ==> BlockIsAuthored(f.body)
  }

  ghost predicate ModuleIsAuthored(items: seq<Item>) {
    forall item :: item in items ==> ItemIsAuthored(item)
  }

  // ---------------------------------------------------------------- with each branch reporting itself

  // Parentheses are no node of the tree: a choice in an `else` goes on the chain, in parentheses or not.
  predicate IsChain(e: Expr) {
    e.Choice? || (e.Paren? && IsChain(e.inner))
  }

  // The chains of `e`, counted in the order they are found: each chain once, outermost first.
  function Chains(e: Expr): nat
    decreases e, 1
  {
    match e
    case Atom(_) => 0
    case Paren(l, inner, r) => Chains(inner)
    case Binary(l, op, r) => Chains(l) + Chains(r)
    case Or(l, op, r) => Chains(l) + Chains(r)
    case Call(callee, l, arg, r) => Chains(arg)
    case Choice(b, g, t, h, o) => 1 + Chains(t) + Chains(b) + ChainsBelow(o)
    case Deferred(_) => 0
    case Record(_) => 0
  }

  // In a chain's `else` part a choice goes on the same chain.
  function ChainsBelow(e: Expr): nat
    decreases e, 2
  {
    match e
    case Paren(l, inner, r) => ChainsBelow(inner)
    case Choice(b, g, t, h, o) => Chains(t) + Chains(b) + ChainsBelow(o)
    case _ => Chains(e)
  }

  // Chain `n` and up are the chains of `e`, under statement `index` of `parent`.
  function Instrument(e: Expr, parent: Id, index: nat, n: nat): Expr
    decreases e, 1
  {
    match e
    case Atom(_) => e
    case Paren(l, inner, r) => Paren(l, Instrument(inner, parent, index, n), r)
    case Binary(l, op, r) => Binary(Instrument(l, parent, index, n), op, Instrument(r, parent, index, n + Chains(l)))
    case Or(l, op, r) => Or(Instrument(l, parent, index, n), op, Instrument(r, parent, index, n + Chains(l)))
    case Call(callee, l, arg, r) => Call(callee, l, Instrument(arg, parent, index, n), r)
    case Choice(_, _, _, _, _) => Link(e, parent, index, n, OfIf, n + 1)
    case Deferred(_) => e
    case Record(_) => e
  }

  // One link of chain `order`: its arm is `kind`, the chains inside it are numbered from `n`.
  function Link(e: Expr, parent: Id, index: nat, order: nat, kind: Kind, n: nat): Expr
    requires e.Choice?
    decreases e, 0
  {
    Choice(
      WrapArm(e.body, ArmAt(parent, index, order, kind), parent, index, n + Chains(e.test)),
      e.ifGap,
      Instrument(e.test, parent, index, n),
      e.elseGap,
      Follow(e.orelse, parent, index, order, kind, n + Chains(e.test) + Chains(e.body)))
  }

  function Follow(e: Expr, parent: Id, index: nat, order: nat, kind: Kind, n: nat): Expr
    decreases e, 3
  {
    if e.Paren? && IsChain(e) then Paren(e.open, Follow(e.inner, parent, index, order, kind, n), e.close)
    else if e.Choice? then Link(e, parent, index, order, NextElif(kind), n)
    else WrapArm(e, ArmAt(parent, index, order, OfElse), parent, index, n)
  }

  // The wrap goes inside the parentheses the value is written in.
  function WrapArm(e: Expr, id: Id, parent: Id, index: nat, n: nat): Expr
    decreases e, 2
  {
    if e.Paren? then Paren(e.open, WrapArm(e.inner, id, parent, index, n), e.close)
    else Reporting(id, Instrument(e, parent, index, n))
  }

  // (record(id) or (value)): the recorder answers None, so the whole is the value.
  function Reporting(id: Id, value: Expr): Expr {
    Paren("(", Or(Record(id), " or ", Paren("(", value, ")")), ")")
  }

  // The text of a position's line, up to the position.
  function LineBefore(before: string): string {
    if before == "" || before[|before| - 1] == '\n' then ""
    else LineBefore(before[..|before| - 1]) + [before[|before| - 1]]
  }

  predicate IsBlank(text: string) {
    text == "" || ((text[0] == ' ' || text[0] == '\t') && IsBlank(text[1..]))
  }

  function Spaces(n: nat): string {
    if n == 0 then "" else Spaces(n - 1) + " "
  }

  // How much of `text` is leading white space.
  function LeadingBlanks(text: string): nat {
    if text != "" && (text[0] == ' ' || text[0] == '\t') then 1 + LeadingBlanks(text[1..]) else 0
  }

  const INDENT: nat := 4

  // The indentation of what is put in under `header`, the text before the suite on its line.
  function Pad(header: string): string {
    Spaces(if IsBlank(header) then |header| else LeadingBlanks(header) + INDENT)
  }

  // A suite that begins on the line of its header is moved to a line of its own.
  function Lead(header: string): string {
    if IsBlank(header) then "" else "\n" + Pad(header)
  }

  function InstrumentStmt(s: Stmt, before: string, parent: Id, index: nat): Stmt {
    match s
    case Simple(head, value, tail) => Simple(head, Instrument(value, parent, index, 0), tail)
    case If(head, test, body, orelse) =>
      var tested := before + head + ExprText(test);
      If(head, Instrument(test, parent, index, 0),
         InstrumentSuite(body, tested, SuiteAt(parent, index, OfIf)),
         InstrumentElif(orelse, tested + SuiteText(body), parent, index, OfIf))
    case Try(head, body, handlers, orelse) =>
      var tried := before + head + SuiteText(body);
      Try(head, InstrumentSuite(body, before + head, SuiteAt(parent, index, OfTry)),
          InstrumentHandlers(handlers, tried, parent, index, 0),
          InstrumentElse(orelse, tried + HandlersText(handlers), parent, index))
    case Inside(way, head, value, body) => Inside(way, head, Instrument(value, parent, index, 0), body)
    case Definition(_) => s
  }

  // An `else` that holds one `if` and nothing more is an `elif`, however it is written; its test's own
  // choices are not looked at.
  function InstrumentElif(o: Orelse, before: string, parent: Id, index: nat, kind: Kind): Orelse
    decreases o, 1
  {
    if o.Else? && IsElif(o.suite.block) then
      var s := o.suite.block.only;
      var tested := before + o.suite.gap + s.head + ExprText(s.test);
      Else(Suite(o.suite.gap, Last(If(
        s.head, s.test,
        InstrumentSuite(s.body, tested, SuiteAt(parent, index, NextElif(kind))),
        InstrumentElif(s.orelse, tested + SuiteText(s.body), parent, index, NextElif(kind))))))
    else InstrumentElse(o, before, parent, index)
  }

  predicate IsElif(b: Block) { b.Last? && b.only.If? }

  function InstrumentElse(o: Orelse, before: string, parent: Id, index: nat): Orelse
    decreases o, 0
  {
    if o.NoElse? then o
    else Else(InstrumentSuite(o.suite, before, SuiteAt(parent, index, OfElse)))
  }

  function InstrumentHandlers(hs: Handlers, before: string, parent: Id, index: nat, position: nat): Handlers {
    match hs
    case NoHandlers => hs
    case Handler(head, suite, rest) =>
      Handler(head, InstrumentSuite(suite, before + head, SuiteAt(parent, index, OfExcept(position))),
              InstrumentHandlers(rest, before + head + SuiteText(suite), parent, index, position + 1))
  }

  function InstrumentSuite(s: Suite, before: string, id: Id): Suite {
    var header := LineBefore(before + s.gap);
    Suite(s.gap + Lead(header),
          More(Simple("", Record(id), "\n" + Pad(header)), InstrumentBlock(s.block, before + s.gap, id, 0)))
  }

  function InstrumentBlock(b: Block, before: string, parent: Id, index: nat): Block {
    match b
    case Last(s) => Last(InstrumentStmt(s, before, parent, index))
    case More(s, rest) =>
      More(InstrumentStmt(s, before, parent, index), InstrumentBlock(rest, before + StmtText(s), parent, index + 1))
  }

  // Only what is inside a function reports itself.
  function InstrumentItem(item: Item, before: string): Item {
    match item
    case Define(f) => Define(f.(body := InstrumentBlock(f.body, before + f.head, Root(f.name), 0)))
    case Top(_, _) => item
  }

  function InstrumentModule(items: seq<Item>, before: string): seq<Item> {
    if items == [] then []
    else [InstrumentItem(items[0], before)] + InstrumentModule(items[1..], before + ItemText(items[0]))
  }

  // ---------------------------------------------------------------- what is put in is well placed

  // How tightly an expression binds: a choice or a lambda least, then `or`, then the operators.
  function Level(e: Expr): nat {
    match e
    case Choice(_, _, _, _, _) => 0
    case Deferred(_) => 0
    case Or(_, _, _) => 1
    case Binary(_, _, _) => 2
    case _ => 3
  }

  // No operand binds less tightly than its place asks.
  predicate IsGrammatical(e: Expr) {
    match e
    case Atom(_) => true
    case Paren(_, inner, _) => IsGrammatical(inner)
    case Binary(l, _, r) => Level(l) >= 2 && Level(r) >= 2 && IsGrammatical(l) && IsGrammatical(r)
    case Or(l, _, r) => Level(l) >= 1 && Level(r) >= 2 && IsGrammatical(l) && IsGrammatical(r)
    case Call(_, _, arg, _) => IsGrammatical(arg)
    case Choice(b, _, t, _, o) => Level(b) >= 1 && Level(t) >= 1 && IsGrammatical(b) && IsGrammatical(t)
        && IsGrammatical(o)
    case Deferred(_) => true
    case Record(_) => true
  }

  // A wrapped arm is a parenthesised value, which may stand wherever the arm stood.
  lemma {:induction false} RewritingStaysGrammatical(e: Expr, parent: Id, index: nat, n: nat)
    requires IsGrammatical(e)
    ensures IsGrammatical(Instrument(e, parent, index, n)) && Level(Instrument(e, parent, index, n)) == Level(e)
    decreases e, 1
  {
    match e
    case Atom(_) =>
    case Deferred(_) =>
    case Record(_) =>
    case Paren(_, inner, _) => RewritingStaysGrammatical(inner, parent, index, n);
    case Call(_, _, arg, _) => RewritingStaysGrammatical(arg, parent, index, n);
    case Binary(l, _, r) =>
      RewritingStaysGrammatical(l, parent, index, n);
      RewritingStaysGrammatical(r, parent, index, n + Chains(l));
    case Or(l, _, r) =>
      RewritingStaysGrammatical(l, parent, index, n);
      RewritingStaysGrammatical(r, parent, index, n + Chains(l));
    case Choice(_, _, _, _, _) => LinkStaysGrammatical(e, parent, index, n, OfIf, n + 1);
  }

  lemma {:induction false} LinkStaysGrammatical(e: Expr, parent: Id, index: nat, order: nat, kind: Kind, n: nat)
    requires e.Choice? && IsGrammatical(e)
    ensures IsGrammatical(Link(e, parent, index, order, kind, n))
    decreases e, 0
  {
    RewritingStaysGrammatical(e.test, parent, index, n);
    ArmStaysGrammatical(e.body, ArmAt(parent, index, order, kind), parent, index, n + Chains(e.test));
    RestStaysGrammatical(e.orelse, parent, index, order, kind, n + Chains(e.test) + Chains(e.body));
  }

  lemma {:induction false} RestStaysGrammatical(e: Expr, parent: Id, index: nat, order: nat, kind: Kind, n: nat)
    requires IsGrammatical(e)
    ensures IsGrammatical(Follow(e, parent, index, order, kind, n))
    decreases e, 3
  {
    if e.Paren? && IsChain(e) {
      RestStaysGrammatical(e.inner, parent, index, order, kind, n);
    } else if e.Choice? {
      LinkStaysGrammatical(e, parent, index, order, NextElif(kind), n);
    } else {
      ArmStaysGrammatical(e, ArmAt(parent, index, order, OfElse), parent, index, n);
    }
  }

  lemma {:induction false} ArmStaysGrammatical(e: Expr, id: Id, parent: Id, index: nat, n: nat)
    requires IsGrammatical(e)
    ensures WrapArm(e, id, parent, index, n).Paren? && IsGrammatical(WrapArm(e, id, parent, index, n))
    decreases e, 2
  {
    if e.Paren? {
      ArmStaysGrammatical(e.inner, id, parent, index, n);
    } else {
      RewritingStaysGrammatical(e, parent, index, n);
    }
  }
}
