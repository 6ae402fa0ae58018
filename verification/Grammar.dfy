/** The grammar of mc/query/query.peg as a value. A rule is written out where it is used; only
    the two mutually recursive ones are called by name. */
module Grammar {
  import Q = Queries

  datatype Rule =
    | Grammar | Select | Delete | Selector
    | SimpleSelector | SimpleSelectorOp | CompoundSelector | FunctionSelector | Function | FunctionOp
    | Source | Namespace | NamespacePart | Wildcard
    | Criteria | MultiCriteria | CompoundCriteria | SimpleCriteria
    | ValueCriteria | IdCriteria | PublisherCriteria | SourceCriteria | ValueCompare | ValueCompareOp
    | RangeCriteria | RangeSelector | RangeSelectorOp | Boolean | BooleanOp | Comparison | ComparisonOp
    | IndexCriteria | WKICriteria
    | Order | OrderSpec | OrderSelectorSpec | OrderSelector | OrderSelectorOp | OrderDir | OrderDirOp
    | Limit | StatementId | PublisherId | WKI | UInt
    | WS | WSX | WhiteSpace | EOL | EOF

  /** The parser actions; every `p.push(text)` is `Push`. */
  datatype Action =
    | SetSelectOp | SetDeleteOp | SetSimpleSelector | SetCompoundSelector | SetFunctionSelector
    | Push | SetNamespace | SetCriteria | AddCompoundCriteria | AddNegatedCriteria
    | AddValueCriteria | AddRangeCriteria | AddIndexCriteria
    | SetOrder | AddOrderSelector | SetOrderDir | SetLimit

  /** Character classes of the lexemes. */
  datatype Class = NamespaceChars | IdChars | AlnumChars | WkiChars | Digits

  predicate InClass(k: Class, c: char) {
    match k
    case NamespaceChars => Q.IsNamespaceChar(c)
    case IdChars => Q.IsStatementIdChar(c)
    case AlnumChars => Q.IsAlnum(c)
    case WkiChars => Q.IsWkiChar(c)
    case Digits => '0' <= c <= '9'
  }

  /** The literals of an ordered choice, none of them empty. */
  type WordList = ws: seq<string> | forall i :: 0 <= i < |ws| ==> ws[i] != ""

  /** `OneOf` is an ordered choice of literals, `Named` a rule and its right-hand side,
      `Ref` a call of a recursive rule. */
  datatype Expr =
    | Lit(w: string)
    | OneOf(ws: WordList)
    | Any(k: Class)
    | Seq(a: Expr, b: Expr)
    | Alt(a: Expr, b: Expr)
    | Star(a: Expr)
    | Opt(a: Expr)
    | Named(r: Rule, a: Expr)
    | Ref(r: Rule)
    | Capture(a: Expr)
    | Act(act: Action)
    | End

  // ---- Well-founded expressions ----

  predicate Consumes(e: Expr) {
    match e
    case Lit(w) => w != ""
    case OneOf(_) => true
    case Any(_) => true
    case Seq(a, b) => Consumes(a) || Consumes(b)
    case Alt(a, b) => Consumes(a) && Consumes(b)
    case Named(_, a) => Consumes(a)
    case Capture(a) => Consumes(a)
    case Ref(_) => true
    case _ => false
  }

  /** The recursive rules an expression can start with: 0 none, 1 CompoundCriteria, 2 MultiCriteria. */
  function Start(e: Expr): nat {
    match e
    case Seq(a, b) => if Consumes(a) then Start(a) else Max(Start(a), Start(b))
    case Alt(a, b) => Max(Start(a), Start(b))
    case Star(a) => Start(a)
    case Opt(a) => Start(a)
    case Named(_, a) => Start(a)
    case Capture(a) => Start(a)
    case Ref(r) => if r == CompoundCriteria then 1 else 2
    case _ => 0
  }

  function Max(a: nat, b: nat): nat { if a < b then b else a }

  /** Every repeated expression consumes input. */
  predicate Finite(e: Expr) {
    match e
    case Seq(a, b) => Finite(a) && Finite(b)
    case Alt(a, b) => Finite(a) && Finite(b)
    case Star(a) => Finite(a) && Consumes(a)
    case Opt(a) => Finite(a)
    case Named(_, a) => Finite(a)
    case Capture(a) => Finite(a)
    case Ref(r) => r in {CompoundCriteria, MultiCriteria}
    case _ => true
  }

  /** What the parts of an expression inherit from it. */
  lemma {:induction false} Parts(e: Expr)
    requires Finite(e)
    ensures match e
      case Seq(a, b) =>
        && Finite(a) && Finite(b) && Start(a) <= Start(e) && (Consumes(a) || Start(b) <= Start(e))
        && Consumes(e) == (Consumes(a) || Consumes(b))
      case Alt(a, b) =>
        && Finite(a) && Finite(b) && Start(a) <= Start(e) && Start(b) <= Start(e)
        && Consumes(e) == (Consumes(a) && Consumes(b))
      case Star(a) => Finite(a) && Consumes(a) && Start(a) == Start(e) && !Consumes(e)
      case Opt(a) => Finite(a) && Start(a) == Start(e) && !Consumes(e)
      case Named(_, a) => Finite(a) && Start(a) == Start(e) && Consumes(e) == Consumes(a)
      case Capture(a) => Finite(a) && Start(a) == Start(e) && Consumes(e) == Consumes(a)
      case Ref(r) => r in {CompoundCriteria, MultiCriteria}
      case Lit(w) => Consumes(e) ==> w != ""
      case Act(_) => !Consumes(e)
      case End => !Consumes(e)
      case _ => true
  {
  }

  /** Finite, and no recursive rule is called before input is consumed. */
  predicate Safe(e: Expr): (b: bool)
    ensures b ==> Finite(e)
  {
    Finite(e) && Start(e) == 0
  }

  /** Safe, and consumes input. */
  predicate Solid(e: Expr): (b: bool)
    ensures b ==> Safe(e) && Finite(e) && Consumes(e)
  {
    Safe(e) && Consumes(e)
  }

  // ---- Constructors that keep expressions well founded ----

  function Word(w: string): (e: Expr)
    requires w != ""
    ensures Solid(e)
  {
    Lit(w)
  }

  function Words(ws: WordList): (e: Expr)
    ensures Solid(e)
  {
    OneOf(ws)
  }

  function Char(k: Class): (e: Expr)
    ensures Solid(e)
  {
    Any(k)
  }

  function Do(act: Action): (e: Expr)
    ensures Safe(e)
  {
    Act(act)
  }

  function Then(a: Expr, b: Expr): (e: Expr)
    requires Safe(a) && Safe(b)
    ensures Safe(e) && (Solid(a) || Solid(b) ==> Solid(e))
  {
    Seq(a, b)
  }

  /** Behind consumed input anything finite may come. */
  function After(a: Expr, b: Expr): (e: Expr)
    requires Solid(a) && Finite(b)
    ensures Solid(e) && Finite(e)
  {
    Seq(a, b)
  }

  function Or(a: Expr, b: Expr): (e: Expr)
    requires Safe(a) && Safe(b)
    ensures Safe(e) && (Solid(a) && Solid(b) ==> Solid(e))
  {
    Alt(a, b)
  }

  function Many(a: Expr): (e: Expr)
    requires Solid(a)
    ensures Safe(e)
  {
    Star(a)
  }

  function Maybe(a: Expr): (e: Expr)
    requires Safe(a)
    ensures Safe(e)
  {
    Opt(a)
  }

  function Production(r: Rule, a: Expr): (e: Expr)
    requires Safe(a)
    ensures Safe(e) && (Solid(a) ==> Solid(e))
  {
    Named(r, a)
  }

  function Text(a: Expr): (e: Expr)
    requires Solid(a)
    ensures Solid(e)
  {
    Capture(a)
  }

  // ---- Expressions of the grammar ----

  function Then3(a: Expr, b: Expr, c: Expr): (e: Expr)
    requires Safe(a) && Safe(b) && Safe(c)
    ensures Safe(e) && (Solid(a) || Solid(b) || Solid(c) ==> Solid(e))
  {
    hide *; Then(a, Then(b, c))
  }

  function Then4(a: Expr, b: Expr, c: Expr, d: Expr): (e: Expr)
    requires Safe(a) && Safe(b) && Safe(c) && Safe(d)
    ensures Safe(e) && (Solid(a) || Solid(b) || Solid(c) || Solid(d) ==> Solid(e))
  {
    hide *; Then(a, Then3(b, c, d))
  }

  function Then5(a: Expr, b: Expr, c: Expr, d: Expr, f: Expr): (e: Expr)
    requires Safe(a) && Safe(b) && Safe(c) && Safe(d) && Safe(f)
    ensures Safe(e) && (Solid(a) || Solid(b) || Solid(c) || Solid(d) || Solid(f) ==> Solid(e))
  {
    hide *; Then(a, Then4(b, c, d, f))
  }

  function Plus(a: Expr): (e: Expr)
    requires Solid(a)
    ensures Solid(e)
  {
    Then(a, Many(a))
  }

  /** < e > { push } */
  function Pushed(a: Expr): (e: Expr)
    requires Solid(a)
    ensures Solid(e)
  {
    Then(Text(a), Do(Push))
  }

  function EolExpr(): (e: Expr)
    ensures Solid(e)
  {
    Production(EOL, Words(["\r\n", "\n", "\r"]))
  }

  function SpaceExpr(): (e: Expr)
    ensures Solid(e)
  {
    hide *; Production(WhiteSpace, Or(Words([" ", "\t"]), EolExpr()))
  }

  function Ws(): (e: Expr)
    ensures Solid(e)
  {
    hide *; Production(WS, Plus(SpaceExpr()))
  }

  function Wsx(): (e: Expr)
    ensures Safe(e)
  {
    hide *; Production(WSX, Many(SpaceExpr()))
  }

  /** < [class]+ > */
  function Lexeme(r: Rule, k: Class): (e: Expr)
    ensures Solid(e)
  {
    Production(r, Text(Plus(Char(k))))
  }

  /** < 'w1' / 'w2' / ... > { push } */
  function Keyword(r: Rule, op: Rule, ws: WordList): (e: Expr)
    ensures Solid(e)
  {
    hide *; Production(r, Pushed(Production(op, Words(ws))))
  }

  const SELECTOR_WORDS: WordList := ["*", "body", "id", "publisher", "namespace", "source", "timestamp", "counter"]
  const FUNCTION_WORDS: WordList := ["COUNT", "MIN", "MAX"]
  const EQUALITY_WORDS: WordList := ["=", "!="]
  const RANGE_WORDS: WordList := ["timestamp", "counter"]
  const BOOLEAN_WORDS: WordList := ["AND", "OR"]
  const COMPARISON_WORDS: WordList := ["<=", "<", "=", "!=", ">=", ">"]
  const ORDER_WORDS: WordList := ["id", "namespace", "publisher", "source", "timestamp", "counter"]
  const DIR_WORDS: WordList := ["ASC", "DESC"]

  function SelectorWord(): (e: Expr)
    ensures Solid(e)
  {
    hide *; Keyword(SimpleSelector, SimpleSelectorOp, SELECTOR_WORDS)
  }

  /** ',' WSX item */
  function More(item: Expr): (e: Expr)
    requires Solid(item)
    ensures Solid(e)
  {
    hide *;
    Then3(Word(","), Wsx(), item)
  }

  function CompoundSelectorExpr(): (e: Expr)
    ensures Solid(e)
  {
    hide *;
    Production(CompoundSelector, Then4(Word("("), SelectorWord(), Many(More(SelectorWord())), Word(")")))
  }

  function FunctionSelectorExpr(): (e: Expr)
    ensures Solid(e)
  {
    hide *;
    Production(FunctionSelector, Then4(Keyword(Function, FunctionOp, FUNCTION_WORDS), Word("("), SelectorWord(), Word(")")))
  }

  function SelectorExpr(): (e: Expr)
    ensures Solid(e)
  {
    hide *;
    var compound := Then(CompoundSelectorExpr(), Do(SetCompoundSelector));
    var fn := Then(FunctionSelectorExpr(), Do(SetFunctionSelector));
    Production(Selector, Or(Then(SelectorWord(), Do(SetSimpleSelector)), Or(compound, fn)))
  }

  function PartExpr(): (e: Expr)
    ensures Solid(e)
  {
    hide *;
    Production(NamespacePart, Plus(Char(NamespaceChars)))
  }

  function WildcardExpr(): (e: Expr)
    ensures Solid(e)
  {
    hide *;
    Production(Wildcard, Word("*"))
  }

  function NamespaceExpr(): (e: Expr)
    ensures Solid(e)
  {
    hide *;
    var dotted := Then3(PartExpr(), Many(Then(Word("."), PartExpr())), Maybe(Then(Word("."), WildcardExpr())));
    Production(Namespace, Or(Text(dotted), Text(WildcardExpr())))
  }

  function SourceExpr(): (e: Expr)
    ensures Solid(e)
  {
    hide *;
    Production(Source, Then4(Word("FROM"), Ws(), NamespaceExpr(), Do(SetNamespace)))
  }

  /** name WSX compare WSX value { push } */
  function LeafExpr(r: Rule, name: Expr, compare: Expr, value: Expr): (e: Expr)
    requires Solid(name) && Solid(compare) && Solid(value)
    ensures Solid(e)
  {
    hide *;
    Production(r, Then(name, Then5(Wsx(), compare, Wsx(), value, Do(Push))))
  }

  function EqualityExpr(): (e: Expr)
    ensures Solid(e)
  {
    hide *;
    Keyword(ValueCompare, ValueCompareOp, EQUALITY_WORDS)
  }

  function IdExpr(): (e: Expr)
    ensures Solid(e)
  {
    hide *;
    LeafExpr(IdCriteria, Pushed(Word("id")), EqualityExpr(), Lexeme(StatementId, IdChars))
  }

  function PublisherExpr(): (e: Expr)
    ensures Solid(e)
  {
    hide *;
    LeafExpr(PublisherCriteria, Pushed(Word("publisher")), EqualityExpr(), Lexeme(PublisherId, AlnumChars))
  }

  function SourceCriteriaExpr(): (e: Expr)
    ensures Solid(e)
  {
    hide *;
    LeafExpr(SourceCriteria, Pushed(Word("source")), EqualityExpr(), Lexeme(PublisherId, AlnumChars))
  }

  function ValueExpr(): (e: Expr)
    ensures Solid(e)
  {
    hide *;
    Production(ValueCriteria, Or(IdExpr(), Or(PublisherExpr(), SourceCriteriaExpr())))
  }

  function RangeExpr(): (e: Expr)
    ensures Solid(e)
  {
    hide *;
    LeafExpr(RangeCriteria, Keyword(RangeSelector, RangeSelectorOp, RANGE_WORDS),
      Keyword(Comparison, ComparisonOp, COMPARISON_WORDS), Lexeme(UInt, Digits))
  }

  function IndexExpr(): (e: Expr)
    ensures Solid(e)
  {
    hide *;
    Production(IndexCriteria, LeafExpr(WKICriteria, Pushed(Word("wki")), Word("="), Lexeme(WKI, WkiChars)))
  }

  function SimpleCriteriaExpr(): (e: Expr)
    ensures Solid(e)
  {
    hide *;
    var range := Then(RangeExpr(), Do(AddRangeCriteria));
    var index := Then(IndexExpr(), Do(AddIndexCriteria));
    Production(SimpleCriteria, Or(Then(ValueExpr(), Do(AddValueCriteria)), Or(range, index)))
  }

  /** Calls of the recursive rules followed by something. */
  function Call(r: Rule, rest: Expr): (e: Expr)
    requires r in {CompoundCriteria, MultiCriteria} && Safe(rest)
    ensures Finite(e)
  {
    Seq(Ref(r), rest)
  }

  function ParensExpr(): (e: Expr)
    ensures Solid(e)
  {
    hide *;
    After(Word("("), Call(MultiCriteria, Word(")")))
  }

  function NegatedExpr(): (e: Expr)
    ensures Solid(e)
  {
    hide *;
    After(Word("NOT"), After(Ws(), Call(CompoundCriteria, Do(AddNegatedCriteria))))
  }

  /** WS Boolean WS CompoundCriteria { addCompoundCriteria } */
  function NextExpr(): (e: Expr)
    ensures Solid(e)
  {
    hide *;
    var right := Call(CompoundCriteria, Do(AddCompoundCriteria));
    After(Ws(), After(Keyword(Boolean, BooleanOp, BOOLEAN_WORDS), After(Ws(), right)))
  }

  function CriteriaExpr(): (e: Expr)
    ensures Solid(e)
  {
    hide *;
    Production(Criteria, After(Word("WHERE"), After(Ws(), Call(MultiCriteria, Do(SetCriteria)))))
  }

  function DirExpr(): (e: Expr)
    ensures Solid(e)
  {
    hide *;
    Then3(Ws(), Keyword(OrderDir, OrderDirOp, DIR_WORDS), Do(SetOrderDir))
  }

  function OrderItemExpr(): (e: Expr)
    ensures Solid(e)
  {
    hide *;
    var word := Keyword(OrderSelector, OrderSelectorOp, ORDER_WORDS);
    Production(OrderSelectorSpec, Then3(word, Do(AddOrderSelector), Maybe(DirExpr())))
  }

  function OrderListExpr(): (e: Expr)
    ensures Solid(e)
  {
    hide *;
    Production(OrderSpec, Then(OrderItemExpr(), Many(More(OrderItemExpr()))))
  }

  function OrderExpr(): (e: Expr)
    ensures Solid(e)
  {
    hide *;
    Production(Order, Then(Word("ORDER"), Then5(Ws(), Word("BY"), Ws(), OrderListExpr(), Do(SetOrder))))
  }

  function LimitExpr(): (e: Expr)
    ensures Solid(e)
  {
    hide *;
    Production(Limit, Then4(Word("LIMIT"), Ws(), Lexeme(UInt, Digits), Do(SetLimit)))
  }

  /** (WS clause)? */
  function Clause(a: Expr): (e: Expr)
    requires Solid(a)
    ensures Safe(e)
  {
    hide *;
    Maybe(Then(Ws(), a))
  }

  function SelectExpr(): (e: Expr)
    ensures Solid(e)
  {
    hide *;
    var clauses := Then3(Clause(CriteriaExpr()), Clause(OrderExpr()), Clause(LimitExpr()));
    Production(Select, Then(Word("SELECT"), Then5(Ws(), SelectorExpr(), Ws(), SourceExpr(), clauses)))
  }

  function DeleteExpr(): (e: Expr)
    ensures Solid(e)
  {
    hide *;
    Production(Delete, Then5(Word("DELETE"), Ws(), SourceExpr(), Clause(CriteriaExpr()), Clause(LimitExpr())))
  }

  function Eof(): (e: Expr)
    ensures Safe(e)
  {
    Production(EOF, End)
  }

  function Whole(a: Expr, act: Action): (e: Expr)
    requires Solid(a)
    ensures Solid(e)
  {
    hide *;
    Then4(a, Wsx(), Eof(), Do(act))
  }

  function GrammarExpr(): (e: Expr)
    ensures Solid(e)
  {
    hide *;
    Production(Grammar, Or(Whole(SelectExpr(), SetSelectOp), Whole(DeleteExpr(), SetDeleteOp)))
  }

  function CompoundBody(): (e: Expr)
    ensures Solid(e)
  {
    hide *;
    Or(SimpleCriteriaExpr(), Or(ParensExpr(), NegatedExpr()))
  }

  function MultiBody(): (e: Expr)
    ensures Finite(e) && Consumes(e) && Start(e) == 1
  {
    hide NextExpr, Many;
    Seq(Ref(CompoundCriteria), Many(NextExpr()))
  }

  /** The right-hand sides of the recursive rules. CompoundCriteria starts with neither of them,
      MultiCriteria only with CompoundCriteria, and both consume input. */
  function Body(r: Rule): (e: Expr)
    requires r in {CompoundCriteria, MultiCriteria}
    ensures Finite(e) && Consumes(e)
    ensures Start(e) < Start(Ref(r))
  {
    hide CompoundBody, MultiBody;
    if r == CompoundCriteria then CompoundBody() else MultiBody()
  }
}
