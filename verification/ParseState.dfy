/** The stack machine of mc/query/parse.go and the loop that runs the recognised actions. */
module ParseState {
  import opened Std
  import opened Grammar
  import opened Peg
  import D = Decimal
  import Q = Queries

  /** What the parser keeps on its untyped stack. */
  datatype Item = Str(s: string) | Crit(c: Q.Criteria) | Spec(spec: Q.OrderSpec)

  /** The parse state, the text captured last, and whether the program has panicked: on the pop
      of an empty stack, a failed type assertion or a slice out of range. */
  datatype Machine = Machine(query: Q.Query, stack: seq<Item>, err: Option<string>, text: string, stuck: bool)

  const EMPTY_QUERY := Q.Query(Q.OpSelect, "", Q.NoSelector, None, None, 0)

  const START := Machine(EMPTY_QUERY, [], None, "", false)

  predicate AllStr(items: seq<Item>) { forall i :: 0 <= i < |items| ==> items[i].Str? }

  predicate AllSpec(items: seq<Item>) { forall i :: 0 <= i < |items| ==> items[i].Spec? }

  function Strings(items: seq<Item>): (r: seq<string>)
    requires AllStr(items)
    ensures |r| == |items| && forall i :: 0 <= i < |r| ==> r[i] == items[i].s
  {
    seq(|items|, i requires 0 <= i < |items| => items[i].s)
  }

  function Specs(items: seq<Item>): (r: seq<Q.OrderSpec>)
    requires AllSpec(items)
    ensures |r| == |items| && forall i :: 0 <= i < |r| ==> r[i] == items[i].spec
  {
    seq(|items|, i requires 0 <= i < |items| => items[i].spec)
  }

  /** The item `k` below the top. */
  function Top(m: Machine, k: nat): Item
    requires k < |m.stack|
  {
    m.stack[|m.stack| - 1 - k]
  }

  predicate StrAt(m: Machine, k: nat) { k < |m.stack| && Top(m, k).Str? }

  predicate CritAt(m: Machine, k: nat) { k < |m.stack| && Top(m, k).Crit? }

  /** Whether the action finds on the stack what it asserts. */
  predicate Runs(act: Action, m: Machine) {
    match act
    case SetSelectOp | SetDeleteOp | Push | SetNamespace | SetLimit => true
    case SetSimpleSelector | AddOrderSelector => StrAt(m, 0)
    case SetCompoundSelector => AllStr(m.stack)
    case SetFunctionSelector | AddIndexCriteria => StrAt(m, 0) && StrAt(m, 1)
    case SetCriteria | AddNegatedCriteria => CritAt(m, 0)
    case AddCompoundCriteria => CritAt(m, 0) && StrAt(m, 1) && CritAt(m, 2)
    case AddValueCriteria | AddRangeCriteria => StrAt(m, 0) && StrAt(m, 1) && StrAt(m, 2)
    case SetOrder => AllSpec(m.stack)
    case SetOrderDir => StrAt(m, 0) && 1 < |m.stack| && Top(m, 1).Spec?
  }

  /** Replaces the top `k` items by one. */
  function Replace(m: Machine, k: nat, item: Item): Machine
    requires k <= |m.stack|
  {
    m.(stack := m.stack[..|m.stack| - k] + [item])
  }

  function Drop(m: Machine, k: nat): Machine
    requires k <= |m.stack|
  {
    m.(stack := m.stack[..|m.stack| - k])
  }

  /** An overflowing number is recorded as the error, and counts as 0. */
  function NumberOf(text: string): int {
    if D.AllDigits(text) && D.Atoi(text).Some? then D.Atoi(text).value else 0
  }

  function NumberError(text: string, err: Option<string>): Option<string> {
    if D.AllDigits(text) && D.Atoi(text).Some? then err else Some(text)
  }

  /** One action on the machine. */
  function Step(act: Action, m: Machine): Machine {
    if m.stuck || !Runs(act, m) then m.(stuck := true) else
      var q := m.query;
      match act
      case SetSelectOp => m.(query := q.(op := Q.OpSelect))
      case SetDeleteOp => m.(query := q.(op := Q.OpDelete, selector := Q.SimpleSelector("id")))
      case SetSimpleSelector => Drop(m.(query := q.(selector := Q.SimpleSelector(Top(m, 0).s))), 1)
      case SetCompoundSelector => m.(query := q.(selector := Q.CompoundSelector(Strings(m.stack))), stack := [])
      case SetFunctionSelector =>
        Drop(m.(query := q.(selector := Q.FunctionSelector(Top(m, 1).s, Top(m, 0).s))), 2)
      case Push => m.(stack := m.stack + [Str(m.text)])
      case SetNamespace => m.(query := q.(namespace := m.text))
      case SetCriteria => Drop(m.(query := q.(criteria := Some(Top(m, 0).c))), 1)
      case AddCompoundCriteria =>
        Replace(m, 3, Crit(Q.CompoundCriteria(Top(m, 1).s, Top(m, 2).c, Top(m, 0).c)))
      case AddNegatedCriteria => Replace(m, 1, Crit(Q.NegatedCriteria(Top(m, 0).c)))
      case AddValueCriteria => Replace(m, 3, Crit(Q.ValueCriteria(Top(m, 2).s, Top(m, 1).s, Top(m, 0).s)))
      case AddRangeCriteria =>
        var crit := Q.RangeCriteria(Top(m, 2).s, Top(m, 1).s, NumberOf(Top(m, 0).s));
        Replace(m, 3, Crit(crit)).(err := NumberError(Top(m, 0).s, m.err))
      case AddIndexCriteria => Replace(m, 2, Crit(Q.IndexCriteria(Top(m, 1).s, Top(m, 0).s)))
      case SetOrder => m.(query := q.(order := Some(Specs(m.stack))), stack := [])
      case AddOrderSelector => Replace(m, 1, Spec(Q.OrderSpec(Top(m, 0).s, "")))
      case SetOrderDir => Replace(m, 2, Spec(Top(m, 1).spec.(dir := Top(m, 0).s)))
      case SetLimit => m.(query := q.(limit := NumberOf(m.text)), err := NumberError(m.text, m.err))
  }

  /** One token of the parse: text is captured, actions are run, rules are skipped. */
  function StepToken(t: Token, s: string, m: Machine): Machine {
    match t.kind
    case RuleNode(_) => m
    case TextNode => if t.begin <= t.end <= |s| then m.(text := s[t.begin..t.end]) else m.(stuck := true)
    case ActionNode(act) => Step(act, m)
  }

  function Steps(ts: seq<Token>, s: string, m: Machine): Machine {
    if ts == [] then m else Steps(ts[1..], s, StepToken(ts[0], s, m))
  }

  lemma {:induction false} StepsAppend(a: seq<Token>, b: seq<Token>, s: string, m: Machine)
    ensures Steps(a + b, s, m) == Steps(b, s, Steps(a, s, m))
    decreases |a|
  {
    hide StepToken;
    if a == [] {
      assert a + b == b;
    } else {
      StepsAppend(a[1..], b, s, StepToken(a[0], s, m));
      assert (a + b)[0] == a[0] && (a + b)[1..] == a[1..] + b;
    }
  }

  lemma {:induction false} StepsOne(ts: seq<Token>, t: Token, s: string, m: Machine)
    ensures Steps(ts + [t], s, m) == StepToken(t, s, Steps(ts, s, m))
  {
    hide StepToken;
    StepsAppend(ts, [t], s, m);
    assert [t][1..] == [];
  }

  /** A panic is final. */
  lemma {:induction false} StuckStays(ts: seq<Token>, s: string, m: Machine)
    requires m.stuck
    ensures Steps(ts, s, m).stuck
    decreases |ts|
  {
    if ts != [] {
      assert StepToken(ts[0], s, m).stuck;
      StuckStays(ts[1..], s, StepToken(ts[0], s, m));
    }
  }

  class ParseState {
    var query: Q.Query
    var stack: seq<Item>
    var err: Option<string>

    /** The object as a machine that last captured `text`. */
    function Now(text: string): Machine
      reads this
    {
      Machine(query, stack, err, text, false)
    }

    constructor ()
      ensures Now("") == START
    {
      query, stack, err := EMPTY_QUERY, [], None;
    }

    method PushItem(item: Item)
      modifies this`stack
      ensures stack == old(stack) + [item]
    {
      stack := stack + [item];
    }

    method Pop() returns (item: Item)
      requires stack != []
      modifies this`stack
      ensures old(stack) == stack + [item]
    {
      item := stack[|stack| - 1];
      stack := stack[..|stack| - 1];
    }

    /** Pops the whole stack into a list in pushing order. */
    method PopStrings() returns (sels: seq<string>)
      requires AllStr(stack)
      modifies this`stack
      ensures stack == [] && sels == Strings(old(stack))
    {
      var all := stack;
      sels := [];
      while stack != []
        invariant |stack| <= |all| && stack == all[..|stack|] && AllStr(all)
        invariant sels == Strings(all)[|stack|..]
        decreases |stack|
      {
        var item := Pop();
        assert item == all[|stack|];
        sels := [item.s] + sels;
      }
      assert Strings(all)[0..] == Strings(all);
    }

    method PopSpecs() returns (specs: seq<Q.OrderSpec>)
      requires AllSpec(stack)
      modifies this`stack
      ensures stack == [] && specs == Specs(old(stack))
    {
      var all := stack;
      specs := [];
      while stack != []
        invariant |stack| <= |all| && stack == all[..|stack|] && AllSpec(all)
        invariant specs == Specs(all)[|stack|..]
        decreases |stack|
      {
        var item := Pop();
        assert item == all[|stack|];
        specs := [item.spec] + specs;
      }
      assert Specs(all)[0..] == Specs(all);
    }

    /** The actions that build a criterion. */
    method AddCriteria(act: Action)
      requires Runs(act, Now(""))
      requires act in {AddValueCriteria, AddRangeCriteria, AddIndexCriteria, AddCompoundCriteria, AddNegatedCriteria}
      modifies this
      ensures forall text :: Now(text) == Step(act, old(Now(text)))
    {
      hide D.AllDigits, D.Atoi;
      var top := Pop();
      match act {
        case AddValueCriteria =>
          var op := Pop();
          var sel := Pop();
          PushItem(Crit(Q.ValueCriteria(sel.s, op.s, top.s)));
        case AddRangeCriteria =>
          var op := Pop();
          var sel := Pop();
          var num := 0;
          if D.AllDigits(top.s) && D.Atoi(top.s).Some? {
            num := D.Atoi(top.s).value;
          } else {
            err := Some(top.s);
          }
          PushItem(Crit(Q.RangeCriteria(sel.s, op.s, num)));
        case AddIndexCriteria =>
          var sel := Pop();
          PushItem(Crit(Q.IndexCriteria(sel.s, top.s)));
        case AddCompoundCriteria =>
          var op := Pop();
          var left := Pop();
          PushItem(Crit(Q.CompoundCriteria(op.s, left.c, top.c)));
        case AddNegatedCriteria =>
          PushItem(Crit(Q.NegatedCriteria(top.c)));
      }
    }

    /** The actions that write a field of the query. */
    method SetField(act: Action, text: string)
      requires Runs(act, Now(text))
      requires act in {SetSelectOp, SetDeleteOp, SetSimpleSelector, SetCompoundSelector, SetFunctionSelector,
        SetNamespace, SetCriteria, SetOrder, SetLimit}
      modifies this
      ensures Now(text) == Step(act, old(Now(text)))
    {
      match act {
        case SetSelectOp => query := query.(op := Q.OpSelect);
        case SetDeleteOp => query := query.(op := Q.OpDelete, selector := Q.SimpleSelector("id"));
        case SetSimpleSelector =>
          var sel := Pop();
          query := query.(selector := Q.SimpleSelector(sel.s));
        case SetCompoundSelector =>
          var sels := PopStrings();
          query := query.(selector := Q.CompoundSelector(sels));
        case SetFunctionSelector =>
          var sel := Pop();
          var fn := Pop();
          query := query.(selector := Q.FunctionSelector(fn.s, sel.s));
        case SetNamespace => query := query.(namespace := text);
        case SetCriteria =>
          var crit := Pop();
          query := query.(criteria := Some(crit.c));
        case SetOrder =>
          var specs := PopSpecs();
          query := query.(order := Some(specs));
        case SetLimit =>
          var limit := 0;
          if D.AllDigits(text) && D.Atoi(text).Some? {
            limit := D.Atoi(text).value;
          } else {
            err := Some(text);
          }
          query := query.(limit := limit);
      }
    }

    /** The actions that build an order item. */
    method AddOrder(act: Action)
      requires Runs(act, Now("")) && act in {AddOrderSelector, SetOrderDir}
      modifies this
      ensures forall text :: Now(text) == Step(act, old(Now(text)))
    {
      var top := Pop();
      if act == AddOrderSelector {
        PushItem(Spec(Q.OrderSpec(top.s, "")));
      } else {
        var item := Pop();
        PushItem(Spec(item.spec.(dir := top.s)));
      }
    }

    /** Runs the recognised tokens in order. */
    method Execute(tokens: seq<Token>, buffer: string)
      requires !Steps(tokens, buffer, Now("")).stuck
      modifies this
      ensures Steps(tokens, buffer, old(Now(""))) == Now(Steps(tokens, buffer, old(Now(""))).text)
    {
      hide Step, Runs;
      var text := "";
      ghost var all := Steps(tokens, buffer, Now(""));
      for i := 0 to |tokens|
        invariant Steps(tokens[i..], buffer, Now(text)) == all
      {
        var t := tokens[i];
        assert tokens[i..][0] == t && tokens[i..][1..] == tokens[i + 1..];
        StuckStaysHere(tokens[i..], buffer, Now(text));
        match t.kind {
          case RuleNode(_) =>
          case TextNode => text := buffer[t.begin..t.end];
          case ActionNode(act) => Perform(act, text);
        }
      }
    }

    method Perform(act: Action, text: string)
      requires !Step(act, Now(text)).stuck
      modifies this
      ensures Now(text) == Step(act, old(Now(text)))
    {
      StepRuns(act, Now(text));
      match act {
        case AddValueCriteria | AddRangeCriteria | AddIndexCriteria | AddCompoundCriteria | AddNegatedCriteria =>
          RunsWithoutText(act, Now(text), Now(""));
          AddCriteria(act);
        case AddOrderSelector | SetOrderDir =>
          RunsWithoutText(act, Now(text), Now(""));
          AddOrder(act);
        case Push => PushItem(Str(text));
        case _ => SetField(act, text);
      }
    }
  }

  lemma StepRuns(act: Action, m: Machine)
    requires !Step(act, m).stuck
    ensures Runs(act, m)
  {
  }

  lemma RunsWithoutText(act: Action, m: Machine, n: Machine)
    requires Runs(act, m) && m.stack == n.stack
    ensures Runs(act, n)
  {
  }

  lemma {:induction false} StuckStaysHere(ts: seq<Token>, s: string, m: Machine)
    requires ts != [] && !Steps(ts, s, m).stuck
    ensures !StepToken(ts[0], s, m).stuck
  {
    if StepToken(ts[0], s, m).stuck {
      StuckStays(ts[1..], s, StepToken(ts[0], s, m));
    }
  }
}
