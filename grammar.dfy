/** The generated LR(1) parser for one assembly operation: the terminal
    numbering, the action, end-of-input and goto tables, the reduction table,
    the acceptance test used for error reporting, the reductions over the
    parser's stacks, and the semantic actions. */
module AsmGrammar {
  import opened Base
  import Abc

  // ---------------------------------------------------------------------------
  // Tokens and the values the parser builds.

  /** The tokens of the assembly lexer: the twelve the grammar uses, and every
      other kind, which the grammar has no terminal for. */
  datatype Token =
    | LParen
    | RParen
    | Colon
    | Identifier(text: string)
    | OpIfEq
    | OpIfFalse
    | OpIfTrue
    | OpReturnValue
    | OpReturnVoid
    | StringLiteral(text: string)
    | LCurlyBracket
    | RCurlyBracket
    | OtherToken(kind: string)

  /** A token with its start and end locations. */
  datatype Spanned = Spanned(start: nat, token: Token, end: nat)

  datatype IdSource = FunctionId(name: string) | OtherId(name: string)

  /** An assembly operation: a machine operation, or one of the forms that
      name labels, strings and properties before they are resolved. */
  datatype AssemblyOp =
    | Raw(op: Abc.AbcOp)
    | Label(name: string)
    | IfTrue(name: string)
    | IfFalse(name: string)
    | IfEq(name: string)
    | PushString(name: string)
    | PushNamespace(name: string)
    | FindProperty(name: string)
    | FindPropStrict(name: string)
    | CallProperty(name: string, numArgs: uint32)
    | CallPropVoid(name: string, numArgs: uint32)
    | Call(numArgs: uint32)
    | NewFunction(source: IdSource)

  /** The parser's symbol stack entries: a token, a token's text, or a
      finished operation. */
  datatype Symbol = Variant0(token: Token) | Variant1(text: string) | Variant2(op: AssemblyOp)

  datatype SymbolTriple = SymbolTriple(start: nat, symbol: Symbol, end: nat)

  /** The panics of the generated code. */
  datatype GrammarError =
    | InvalidReduction(reduceIndex: int)
    | InvalidAction(action: int)
    | StackUnderflow
    | TooFewSymbols
    | SymbolTypeMismatch
    | Unreachable

  // ---------------------------------------------------------------------------
  // Terminals.

  const NUM_TERMINALS: nat := 12

  /** The terminal names, in terminal-number order. */
  const TERMINAL: seq<string> := [
    "\"(\"", "\")\"", "\":\"", "\"identifier\"", "\"ifeq\"", "\"iffalse\"",
    "\"iftrue\"", "\"returnvalue\"", "\"returnvoid\"", "\"string\"", "\"{\"", "\"}\""]

  /** The terminal each token kind stands for in the grammar, if any. */
  function TerminalOf(t: Token): Option<string> {
    match t
    case LParen => Some("\"(\"")
    case RParen => Some("\")\"")
    case Colon => Some("\":\"")
    case Identifier(_) => Some("\"identifier\"")
    case OpIfEq => Some("\"ifeq\"")
    case OpIfFalse => Some("\"iffalse\"")
    case OpIfTrue => Some("\"iftrue\"")
    case OpReturnValue => Some("\"returnvalue\"")
    case OpReturnVoid => Some("\"returnvoid\"")
    case StringLiteral(_) => Some("\"string\"")
    case LCurlyBracket => Some("\"{\"")
    case RCurlyBracket => Some("\"}\"")
    case OtherToken(_) => None
  }

  /** `__token_to_integer`: the terminal number of a token, which names that
      token's terminal; tokens without a terminal have none. */
  function TokenToInteger(t: Token): (r: Option<nat>)
    ensures r.Some? <==> !t.OtherToken?
    ensures r.Some? ==> r.value < NUM_TERMINALS && TerminalOf(t) == Some(TERMINAL[r.value])
  {
    match t
    case LParen => Some(0)
    case RParen => Some(1)
    case Colon => Some(2)
    case Identifier(_) => Some(3)
    case OpIfEq => Some(4)
    case OpIfFalse => Some(5)
    case OpIfTrue => Some(6)
    case OpReturnValue => Some(7)
    case OpReturnVoid => Some(8)
    case StringLiteral(_) => Some(9)
    case LCurlyBracket => Some(10)
    case RCurlyBracket => Some(11)
    case OtherToken(_) => None
  }

  /** Two tokens get the same terminal number exactly when they are of the
      same kind, and every number below twelve is used. */
  lemma TokenToIntegerKinds(a: Token, b: Token)
    requires !a.OtherToken? && !b.OtherToken?
    ensures TokenToInteger(a) == TokenToInteger(b) <==> TerminalOf(a) == TerminalOf(b)
    ensures forall i :: 0 <= i < NUM_TERMINALS ==> TokenToInteger(TokenNumbered(i)) == Some(i)
  {
    TerminalNumbersDistinct(TokenToInteger(a).value, TokenToInteger(b).value);
  }

  /** A token of terminal number `i`. */
  function TokenNumbered(i: nat): (t: Token)
    requires i < NUM_TERMINALS
    ensures TokenToInteger(t) == Some(i)
  {
    [LParen, RParen, Colon, Identifier(""), OpIfEq, OpIfFalse, OpIfTrue,
     OpReturnValue, OpReturnVoid, StringLiteral(""), LCurlyBracket, RCurlyBracket][i]
  }

  /** Distinct terminal numbers have distinct names. */
  lemma TerminalNumbersDistinct(i: nat, j: nat)
    requires i < NUM_TERMINALS && j < NUM_TERMINALS
    ensures TERMINAL[i] == TERMINAL[j] ==> i == j
  {
    if i != j {
      // Each name is told from the others by its length and its second character.
      assert |TERMINAL[i]| != |TERMINAL[j]| || TERMINAL[i][1] != TERMINAL[j][1];
    }
  }

  // ---------------------------------------------------------------------------
  // The tables.

  /** The action table, one row per state and one column per terminal: 0 is
      an error, `n > 0` shifts to state `n - 1`, and `n < 0` reduces by rule
      `-(n + 1)`. */
  const ACTION: seq<seq<int8>> := [
    /* State 0 */  [0, 0, 0, 3, 4, 5, 6, 7, 8, 0, 0, 0],
    /* State 1 */  [0, 0, 0, 0, 0, 0, 0, 0, 0, 0, 0, 0],
    /* State 2 */  [0, 0, 9, 0, 0, 0, 0, 0, 0, 0, 0, 0],
    /* State 3 */  [0, 0, 0, 10, 0, 0, 0, 0, 0, 0, 0, 0],
    /* State 4 */  [0, 0, 0, 11, 0, 0, 0, 0, 0, 0, 0, 0],
    /* State 5 */  [0, 0, 0, 12, 0, 0, 0, 0, 0, 0, 0, 0],
    /* State 6 */  [0, 0, 0, 0, 0, 0, 0, 0, 0, 0, 0, 0],
    /* State 7 */  [0, 0, 0, 0, 0, 0, 0, 0, 0, 0, 0, 0],
    /* State 8 */  [0, 0, 0, 0, 0, 0, 0, 0, 0, 0, 0, 0],
    /* State 9 */  [0, 0, 0, 0, 0, 0, 0, 0, 0, 0, 0, 0],
    /* State 10 */ [0, 0, 0, 0, 0, 0, 0, 0, 0, 0, 0, 0],
    /* State 11 */ [0, 0, 0, 0, 0, 0, 0, 0, 0, 0, 0, 0]]

  /** The action at end of input, one entry per state. */
  const EOF_ACTION: seq<int8> := [0, -7, 0, 0, 0, 0, -2, -3, -1, -6, -4, -5]

  const NUM_STATES: nat := 12

  predicate IsState(s: int) {
    0 <= s < NUM_STATES
  }

  predicate AllStates(states: seq<int8>) {
    forall k :: 0 <= k < |states| ==> IsState(states[k])
  }

  /** `__action`: the table's entry for `state` and the terminal, computed
      from the shifts the table holds (`ActionTable` shows the two agree):
      from the start state, each of the six tokens that begin an operation;
      after an identifier, the colon; after a conditional jump, the label
      identifier. No state reduces on a token. */
  function Action(state: int8, integer: nat): (r: int8)
    requires IsState(state) && integer < NUM_TERMINALS
    ensures r >= 0
    ensures r != 0 ==> IsState(r as int - 1) && r as int - 1 > state as int
  {
    if state == 0 && 3 <= integer <= 8 then integer as int8
    else if state == 2 && integer == 2 then 9
    else if 3 <= state <= 5 && integer == 3 then state + 7
    else 0
  }

  function EofAction(state: int8): (r: int8)
    requires IsState(state)
    ensures r <= 0
    ensures r != 0 ==> 0 <= -(r as int + 1) <= 6
    ensures r == -7 <==> state == 1
  {
    EOF_ACTION[state]
  }

  /** Every nonterminal goto leads to state 1 for the only nonterminal, and to
      state 0 otherwise. */
  function Goto(state: int8, nt: nat): (r: int8)
    ensures IsState(r)
  {
    if nt == 0 then 1 else 0
  }

  /** The computed actions are the generated table's entries. */
  lemma ActionTable(state: int8, integer: nat)
    requires IsState(state) && integer < NUM_TERMINALS
    ensures Action(state, integer) == ACTION[state][integer]
  {
  }

  datatype SimulatedReduce = Reduce(statesToPop: nat, nonterminalProduced: nat) | Accept

  /** `__simulate_reduce`: each of the six rules pops one or two states and
      produces nonterminal 0; rule 6 accepts; any other index is a panic. */
  function SimulateReduce(reduceIndex: int): (r: Result<SimulatedReduce, GrammarError>)
    ensures r.Ok? <==> 0 <= reduceIndex <= 6
    ensures r.Ok? ==> (r.value.Accept? <==> reduceIndex == 6)
    ensures r.Ok? && r.value.Reduce? ==> r.value.nonterminalProduced == 0 && 1 <= r.value.statesToPop <= 2
    ensures r.Err? ==> r.error == InvalidReduction(reduceIndex)
  {
    match reduceIndex
    case 0 => Ok(Reduce(2, 0))
    case 1 => Ok(Reduce(1, 0))
    case 2 => Ok(Reduce(1, 0))
    case 3 => Ok(Reduce(2, 0))
    case 4 => Ok(Reduce(2, 0))
    case 5 => Ok(Reduce(2, 0))
    case 6 => Ok(Accept)
    case _ => Err(InvalidReduction(reduceIndex))
  }

  /** The rules for one symbol (`"returnvalue"`, `"returnvoid"`) pop one state;
      the two-symbol rules pop two. */
  lemma ReductionPopCounts()
    ensures forall k :: k in {0, 3, 4, 5} ==> SimulateReduce(k) == Ok(Reduce(2, 0))
    ensures forall k :: k in {1, 2} ==> SimulateReduce(k) == Ok(Reduce(1, 0))
  {
  }

  /** `__expected_tokens`: the terminals that have an action in `state`. */
  function ExpectedTokens(state: int8): (r: seq<string>)
    requires IsState(state)
    ensures |r| <= NUM_TERMINALS
  {
    ExpectedFrom(TERMINAL, state, NUM_TERMINALS)
  }

  /** The names, among the first `n` terminals, of those with an action in `state`. */
  function ExpectedFrom(names: seq<string>, state: int8, n: nat): (r: seq<string>)
    requires IsState(state) && n <= NUM_TERMINALS == |names|
    ensures |r| <= n
  {
    if n == 0 then []
    else ExpectedFrom(names, state, n - 1) + (if Action(state, n - 1) != 0 then [names[n - 1]] else [])
  }

  /** The expected names are exactly the names of the terminals with a
      non-zero action. */
  lemma {:induction false} ExpectedFromMembers(names: seq<string>, state: int8, n: nat)
    requires IsState(state) && n <= NUM_TERMINALS == |names|
    ensures forall name :: name in ExpectedFrom(names, state, n) <==>
      exists i :: 0 <= i < n && Action(state, i) != 0 && names[i] == name
  {
    if n > 0 {
      ExpectedFromMembers(names, state, n - 1);
    }
  }

  lemma ExpectedTokensMembers(state: int8)
    requires IsState(state)
    ensures forall name :: name in ExpectedTokens(state) <==>
      exists i :: 0 <= i < NUM_TERMINALS && Action(state, i) != 0 && TERMINAL[i] == name
  {
    ExpectedFromMembers(TERMINAL, state, NUM_TERMINALS);
  }

  /** At the start only the identifier that begins a label and the five
      operation keywords may come: the terminals 3 to 8. */
  lemma ExpectedAtStart()
    ensures ExpectedTokens(0) == TERMINAL[3..9]
    ensures ExpectedTokens(0) == ["\"identifier\"", "\"ifeq\"", "\"iffalse\"", "\"iftrue\"", "\"returnvalue\"", "\"returnvoid\""]
  {
    ExpectedStartRun(TERMINAL, 9);
    ExpectedFromTail(TERMINAL, 0, 9);
  }

  lemma {:induction false} ExpectedStartRun(names: seq<string>, n: nat)
    requires 3 <= n <= 9 && |names| == NUM_TERMINALS
    ensures ExpectedFrom(names, 0, n) == names[3..n]
    decreases n
  {
    if n == 3 {
      assert ExpectedFrom(names, 0, 1) == [];
      assert ExpectedFrom(names, 0, 2) == [];
    } else {
      ExpectedStartRun(names, n - 1);
      assert names[3..n] == names[3..n - 1] + [names[n - 1]];
    }
  }

  /** Past the last terminal with an action nothing more is added. */
  lemma {:induction false} ExpectedFromTail(names: seq<string>, state: int8, n: nat)
    requires IsState(state) && n <= NUM_TERMINALS == |names|
    requires forall i :: n <= i < NUM_TERMINALS ==> Action(state, i) == 0
    ensures ExpectedFrom(names, state, NUM_TERMINALS) == ExpectedFrom(names, state, n)
  {
    var k := NUM_TERMINALS;
    while k > n
      invariant n <= k <= NUM_TERMINALS
      invariant ExpectedFrom(names, state, k) == ExpectedFrom(names, state, NUM_TERMINALS)
      decreases k
    {
      assert ExpectedFrom(names, state, k) == ExpectedFrom(names, state, k - 1) + [];
      k := k - 1;
    }
  }

  /** After an identifier only the colon of a label may come. */
  lemma ExpectedAfterIdentifier()
    ensures ExpectedTokens(2) == [TERMINAL[2]]
    ensures ExpectedTokens(2) == ["\":\""]
  {
    assert ExpectedFrom(TERMINAL, 2, 2) == [] by {
      assert ExpectedFrom(TERMINAL, 2, 1) == [];
    }
    assert ExpectedFrom(TERMINAL, 2, 3) == [TERMINAL[2]];
    ExpectedFromTail(TERMINAL, 2, 3);
  }

  /** A finished operation expects nothing. */
  lemma ExpectedWhenFinished()
    ensures ExpectedTokens(1) == []
  {
    ExpectedFromTail(TERMINAL, 1, 0);
  }

  // ---------------------------------------------------------------------------
  // `__accepts`: would the parser, from these states, consume the lookahead?

  /** The loop runs at most twice: any reduction ends in state 1, from which
      the table either accepts or rejects. */
  function AcceptsMeasure(states: seq<int8>): nat {
    if |states| > 0 && states[|states| - 1] == 1 then 0 else 1
  }

  /** State 1, a finished operation, has no action on any token. */
  lemma FinishedRejectsTokens()
    ensures forall integer :: 0 <= integer < NUM_TERMINALS ==> Action(1, integer) == 0
  {
  }

  /** What `__accepts` answers for the state stack `states` and the lookahead
      terminal (`None` is end of input): the first non-reducing action
      decides, each reduction pops its states and pushes the goto state. */
  function AcceptsSpec(states: seq<int8>, lookahead: Option<nat>): (r: Result<bool, GrammarError>)
    requires AllStates(states)
    requires lookahead.Some? ==> lookahead.value < NUM_TERMINALS
    ensures |states| == 0 ==> r == Err(StackUnderflow)
    ensures |states| > 0 && lookahead.Some? ==> r == Ok(Action(states[|states| - 1], lookahead.value) != 0)
    ensures r.Err? ==> r.error == StackUnderflow
    decreases AcceptsMeasure(states)
  {
    if |states| == 0 then Err(StackUnderflow)
    else
      var top := states[|states| - 1];
      var action := if lookahead.None? then EofAction(top) else Action(top, lookahead.value);
      if action == 0 then Ok(false)
      else if action > 0 then Ok(true)
      else
        match SimulateReduce(-(action as int + 1))
        case Err(e) => Err(e)
        case Ok(Accept) => Ok(true)
        case Ok(Reduce(toPop, nt)) =>
          if toPop >= |states| then Err(StackUnderflow)
          else
            var kept := states[..|states| - toPop];
            FinishedRejectsTokens();
            AcceptsSpec(kept + [Goto(kept[|kept| - 1], nt)], lookahead)
  }

  function ErrorStateSeq(errorState: Option<int8>): seq<int8> {
    if errorState.Some? then [errorState.value] else []
  }

  /** `__accepts`: copies the stack, pushes the error state if any, and loops,
      truncating and pushing the copy, until an action decides. */
  method Accepts(errorState: Option<int8>, states: seq<int8>, optInteger: Option<nat>) returns (r: Result<bool, GrammarError>)
    requires AllStates(states) && (errorState.Some? ==> IsState(errorState.value))
    requires optInteger.Some? ==> optInteger.value < NUM_TERMINALS
    ensures r == AcceptsSpec(states + ErrorStateSeq(errorState), optInteger)
  {
    var stack := states + ErrorStateSeq(errorState);
    while true
      invariant AllStates(stack)
      invariant AcceptsSpec(stack, optInteger) == AcceptsSpec(states + ErrorStateSeq(errorState), optInteger)
      decreases AcceptsMeasure(stack)
    {
      if |stack| == 0 {
        return Err(StackUnderflow);
      }
      var top := stack[|stack| - 1];
      var action := if optInteger.None? then EofAction(top) else Action(top, optInteger.value);
      if action == 0 {
        return Ok(false);
      }
      if action > 0 {
        return Ok(true);
      }
      var reduced := SimulateReduce(-(action as int + 1));
      if reduced.Err? {
        // The end-of-input actions name the rules 0 to 6 only, so the
        // source's panic on another index cannot happen.
        assert false;
      }
      if reduced.value.Accept? {
        return Ok(true);
      }
      var toPop := reduced.value.statesToPop;
      if toPop >= |stack| {
        return Err(StackUnderflow);
      }
      FinishedRejectsTokens();
      stack := stack[..|stack| - toPop];
      stack := stack + [Goto(stack[|stack| - 1], reduced.value.nonterminalProduced)];
    }
  }

  /** Lookahead acceptance: from the start only the six tokens that begin an
      operation; after an identifier only the colon; after a conditional jump
      only the label identifier; after a finished operation no token at all. */
  lemma AcceptsLookahead(integer: nat, stack: seq<int8>)
    requires integer < NUM_TERMINALS && AllStates(stack)
    ensures AcceptsSpec([0], Some(integer)) == Ok(3 <= integer <= 8)
    ensures AcceptsSpec([0, 2], Some(integer)) == Ok(integer == 2)
    ensures forall k :: 3 <= k <= 5 ==> AcceptsSpec([0, k], Some(integer)) == Ok(integer == 3)
    ensures AcceptsSpec(stack + [1], Some(integer)) == Ok(false)
  {
    FinishedRejectsTokens();
    assert (stack + [1])[|stack|] == 1;
  }

  // ---------------------------------------------------------------------------
  // Symbols per terminal, and the semantic actions.

  /** `__token_to_symbol`: identifiers and strings are kept as their text,
      every other terminal as the token itself. */
  function TokenToSymbol(tokenIndex: nat, t: Token): (r: Result<Symbol, GrammarError>)
    ensures r.Ok? <==> tokenIndex < NUM_TERMINALS && ((tokenIndex == 3 || tokenIndex == 9) ==> t.Identifier? || t.StringLiteral?)
    ensures r.Ok? ==> (r.value.Variant1? <==> tokenIndex == 3 || tokenIndex == 9)
    ensures r.Ok? && r.value.Variant1? ==> r.value.text == t.text
    ensures r.Ok? && !r.value.Variant1? ==> r.value == Variant0(t)
    ensures r.Err? ==> r.error == Unreachable
  {
    if tokenIndex in {0, 1, 2, 4, 5, 6, 7, 8, 10, 11} then Ok(Variant0(t))
    else if tokenIndex in {3, 9} then
      (if t.Identifier? || t.StringLiteral? then Ok(Variant1(t.text)) else Err(Unreachable))
    else Err(Unreachable)
  }

  /** For a token's own terminal number the conversion never fails: text for
      identifiers and strings, the token otherwise. */
  lemma TokenToSymbolOfOwnIndex(t: Token)
    requires !t.OtherToken?
    ensures TokenToSymbol(TokenToInteger(t).value, t) ==
      if t.Identifier? || t.StringLiteral? then Ok(Variant1(t.text)) else Ok(Variant0(t))
  {
  }

  /** `__action0` to `__action6`. The start rule hands the operation through;
      each other rule builds the operation its token form stands for. */
  function Action0(op: AssemblyOp): (r: AssemblyOp)
    ensures r == op
  {
    op
  }

  function Action1(name: string, colon: Token): (r: AssemblyOp)
    ensures Production([Identifier(name), Colon]) == Some(r)
  {
    Label(name)
  }

  function Action2(keyword: Token): (r: AssemblyOp)
    ensures Production([OpReturnValue]) == Some(r)
  {
    Raw(Abc.AbcOp.ReturnValue)
  }

  function Action3(keyword: Token): (r: AssemblyOp)
    ensures Production([OpReturnVoid]) == Some(r)
  {
    Raw(Abc.AbcOp.ReturnVoid)
  }

  function Action4(keyword: Token, name: string): (r: AssemblyOp)
    ensures Production([OpIfFalse, Identifier(name)]) == Some(r)
  {
    IfFalse(name)
  }

  function Action5(keyword: Token, name: string): (r: AssemblyOp)
    ensures Production([OpIfTrue, Identifier(name)]) == Some(r)
  {
    IfTrue(name)
  }

  function Action6(keyword: Token, name: string): (r: AssemblyOp)
    ensures Production([OpIfEq, Identifier(name)]) == Some(r)
  {
    IfEq(name)
  }

  // ---------------------------------------------------------------------------
  // `__reduce`: one reduction over the state and symbol stacks.

  datatype Popped<T> = Popped(start: nat, value: T, end: nat, rest: seq<SymbolTriple>)

  function PopToken(symbols: seq<SymbolTriple>): (r: Result<Popped<Token>, GrammarError>)
    ensures r.Ok? <==> |symbols| > 0 && symbols[|symbols| - 1].symbol.Variant0?
    ensures r.Ok? ==> r.value.rest + [SymbolTriple(r.value.start, Variant0(r.value.value), r.value.end)] == symbols
    ensures r.Err? ==> r.error == SymbolTypeMismatch
  {
    if |symbols| > 0 && symbols[|symbols| - 1].symbol.Variant0? then
      var s := symbols[|symbols| - 1];
      Ok(Popped(s.start, s.symbol.token, s.end, symbols[..|symbols| - 1]))
    else Err(SymbolTypeMismatch)
  }

  function PopText(symbols: seq<SymbolTriple>): (r: Result<Popped<string>, GrammarError>)
    ensures r.Ok? <==> |symbols| > 0 && symbols[|symbols| - 1].symbol.Variant1?
    ensures r.Ok? ==> r.value.rest + [SymbolTriple(r.value.start, Variant1(r.value.value), r.value.end)] == symbols
    ensures r.Err? ==> r.error == SymbolTypeMismatch
  {
    if |symbols| > 0 && symbols[|symbols| - 1].symbol.Variant1? then
      var s := symbols[|symbols| - 1];
      Ok(Popped(s.start, s.symbol.text, s.end, symbols[..|symbols| - 1]))
    else Err(SymbolTypeMismatch)
  }

  function PopOp(symbols: seq<SymbolTriple>): (r: Result<Popped<AssemblyOp>, GrammarError>)
    ensures r.Ok? <==> |symbols| > 0 && symbols[|symbols| - 1].symbol.Variant2?
    ensures r.Ok? ==> r.value.rest + [SymbolTriple(r.value.start, Variant2(r.value.value), r.value.end)] == symbols
    ensures r.Err? ==> r.error == SymbolTypeMismatch
  {
    if |symbols| > 0 && symbols[|symbols| - 1].symbol.Variant2? then
      var s := symbols[|symbols| - 1];
      Ok(Popped(s.start, s.symbol.op, s.end, symbols[..|symbols| - 1]))
    else Err(SymbolTypeMismatch)
  }

  /** A rule's effect on the symbol stack: the new stack, and the number of
      states to pop. */
  datatype RuleResult = RuleResult(symbols: seq<SymbolTriple>, toPop: nat)

  /** The symbol kinds rule `rule` pops, topmost last: a token (rules 1, 2),
      a text then a token (rule 0, `name :`), a token then a text (rules 3 to
      5, `keyword name`). */
  predicate RuleFits(rule: nat, symbols: seq<SymbolTriple>) {
    var n := |symbols|;
    if rule == 1 || rule == 2 then n >= 1 && symbols[n - 1].symbol.Variant0?
    else if rule == 0 then n >= 2 && symbols[n - 1].symbol.Variant0? && symbols[n - 2].symbol.Variant1?
    else n >= 2 && symbols[n - 1].symbol.Variant1? && symbols[n - 2].symbol.Variant0?
  }

  /** The number of symbols (and states) rule `rule` pops. */
  function RuleLength(rule: nat): nat {
    if rule == 1 || rule == 2 then 1 else 2
  }

  /** The operation rule `rule` builds from the symbols it pops. */
  function RuleOp(rule: nat, symbols: seq<SymbolTriple>): AssemblyOp
    requires rule <= 5 && RuleFits(rule, symbols)
  {
    var n := |symbols|;
    if rule == 0 then Label(symbols[n - 2].symbol.text)
    else if rule == 1 then Raw(Abc.AbcOp.ReturnValue)
    else if rule == 2 then Raw(Abc.AbcOp.ReturnVoid)
    else if rule == 3 then IfFalse(symbols[n - 1].symbol.text)
    else if rule == 4 then IfTrue(symbols[n - 1].symbol.text)
    else IfEq(symbols[n - 1].symbol.text)
  }

  /** The rule's symbols are replaced by one operation symbol that spans them;
      the symbols below them are untouched. */
  predicate RuleReduced(rule: nat, symbols: seq<SymbolTriple>, rr: RuleResult)
    requires rule <= 5 && RuleFits(rule, symbols)
  {
    var n, k := |symbols|, RuleLength(rule);
    rr.toPop == k && |rr.symbols| == n - k + 1 && rr.symbols[..n - k] == symbols[..n - k] &&
    rr.symbols[n - k] == SymbolTriple(symbols[n - k].start, Variant2(RuleOp(rule, symbols)), symbols[n - 1].end)
  }

  /** `__reduce0` to `__reduce5`: pop the rule's symbols right to left, run
      its action, push the operation spanning them. */
  function ReduceRule(rule: nat, symbols: seq<SymbolTriple>): (r: Result<RuleResult, GrammarError>)
    requires rule <= 5
    ensures r.Ok? <==> RuleFits(rule, symbols)
    ensures r.Ok? ==> RuleReduced(rule, symbols, r.value)
    ensures r.Err? ==> r.error == TooFewSymbols || r.error == SymbolTypeMismatch
  {
    if rule == 0 then ReduceLabel(symbols)
    else if rule == 1 || rule == 2 then ReduceReturn(rule, symbols)
    else ReduceBranch(rule, symbols)
  }

  /** `__reduce0`: `name :` pops the colon, then the name. */
  function ReduceLabel(symbols: seq<SymbolTriple>): (r: Result<RuleResult, GrammarError>)
    ensures r.Ok? <==> RuleFits(0, symbols)
    ensures r.Ok? ==> RuleReduced(0, symbols, r.value)
    ensures r.Err? ==> r.error == TooFewSymbols || r.error == SymbolTypeMismatch
  {
    if |symbols| < 2 then Err(TooFewSymbols)
    else
      match PopToken(symbols)
      case Err(e) => Err(e)
      case Ok(colon) =>
        match PopText(colon.rest)
        case Err(e) => Err(e)
        case Ok(name) =>
          assert colon.rest == symbols[..|symbols| - 1] && name.rest == symbols[..|symbols| - 2];
          Ok(RuleResult(name.rest + [SymbolTriple(name.start, Variant2(Action1(name.value, colon.value)), colon.end)], 2))
  }

  /** `__reduce1` and `__reduce2`: a return keyword alone. */
  function ReduceReturn(rule: nat, symbols: seq<SymbolTriple>): (r: Result<RuleResult, GrammarError>)
    requires rule == 1 || rule == 2
    ensures r.Ok? <==> RuleFits(rule, symbols)
    ensures r.Ok? ==> RuleReduced(rule, symbols, r.value)
    ensures r.Err? ==> r.error == SymbolTypeMismatch
  {
    match PopToken(symbols)
    case Err(e) => Err(e)
    case Ok(keyword) =>
      var op := if rule == 1 then Action2(keyword.value) else Action3(keyword.value);
      assert keyword.rest == symbols[..|symbols| - 1];
      Ok(RuleResult(keyword.rest + [SymbolTriple(keyword.start, Variant2(op), keyword.end)], 1))
  }

  /** `__reduce3` to `__reduce5`: `keyword name` pops the name, then the keyword. */
  function ReduceBranch(rule: nat, symbols: seq<SymbolTriple>): (r: Result<RuleResult, GrammarError>)
    requires 3 <= rule <= 5
    ensures r.Ok? <==> RuleFits(rule, symbols)
    ensures r.Ok? ==> RuleReduced(rule, symbols, r.value)
    ensures r.Err? ==> r.error == TooFewSymbols || r.error == SymbolTypeMismatch
  {
    if |symbols| < 2 then Err(TooFewSymbols)
    else
      match PopText(symbols)
      case Err(e) => Err(e)
      case Ok(name) =>
        match PopToken(name.rest)
        case Err(e) => Err(e)
        case Ok(keyword) =>
          var op := if rule == 3 then Action4(keyword.value, name.value)
                    else if rule == 4 then Action5(keyword.value, name.value)
                    else Action6(keyword.value, name.value);
          assert name.rest == symbols[..|symbols| - 1] && keyword.rest == symbols[..|symbols| - 2];
          Ok(RuleResult(keyword.rest + [SymbolTriple(keyword.start, Variant2(op), name.end)], 2))
  }

  /** The stacks after a reduction, and the parse result when it accepted. */
  datatype Reduced = Reduced(states: seq<int8>, symbols: seq<SymbolTriple>, result: Option<AssemblyOp>)

  /** `__reduce`: the accepting rule 6 keeps the states and returns the
      operation; rules 0 to 5 pop their states and push the goto target,
      state 1; any other index is a panic. */
  function ReduceSpec(action: int, states: seq<int8>, symbols: seq<SymbolTriple>): (r: Result<Reduced, GrammarError>)
    ensures !(0 <= action <= 6) ==> r == Err(InvalidAction(action))
    ensures action == 6 && r.Ok? ==> r.value.states == states && r.value.result.Some?
    ensures 0 <= action <= 5 && r.Ok? ==> var m := |r.value.states|;
      r.value.result.None? && m == |states| - RuleLength(action) + 1 && m >= 2 &&
      r.value.states[..m - 1] == states[..m - 1] && r.value.states[m - 1] == 1
    ensures action == 6 ==> (r.Ok? <==> PopOp(symbols).Ok?)
    ensures action == 6 && r.Ok? ==>
      r.value.symbols == PopOp(symbols).value.rest && r.value.result == Some(PopOp(symbols).value.value)
    ensures 0 <= action <= 5 ==> (r.Ok? <==> RuleFits(action, symbols) && RuleLength(action) < |states|)
    ensures 0 <= action <= 5 && r.Ok? ==>
      RuleReduced(action, symbols, RuleResult(r.value.symbols, RuleLength(action)))
  {
    if action == 6 then
      match PopOp(symbols)
      case Err(e) => Err(e)
      case Ok(op) => Ok(Reduced(states, op.rest, Some(Action0(op.value))))
    else if 0 <= action <= 5 then
      match ReduceRule(action, symbols)
      case Err(e) => Err(e)
      case Ok(rr) =>
        if rr.toPop >= |states| then Err(StackUnderflow)
        else
          var kept := states[..|states| - rr.toPop];
          Ok(Reduced(kept + [Goto(kept[|kept| - 1], 0)], rr.symbols, None))
    else Err(InvalidAction(action))
  }

  /** The parser's two stacks, as `__reduce` updates them. */
  class ParserStacks {
    var states: seq<int8>
    var symbols: seq<SymbolTriple>

    constructor ()
      ensures states == [0] && symbols == []
    {
      states := [0];
      symbols := [];
    }

    /** On success the stacks are the reduced ones and the result is the
        accepted operation, if any; after a panic the stacks are not used. */
    method Reduce(action: int8) returns (r: Result<Option<AssemblyOp>, GrammarError>)
      modifies this
      ensures var spec := ReduceSpec(action as int, old(states), old(symbols));
        (r.Ok? <==> spec.Ok?) &&
        (r.Ok? ==> r.value == spec.value.result && states == spec.value.states && symbols == spec.value.symbols) &&
        (r.Err? ==> r.error == spec.error)
    {
      if action == 6 {
        var popped := PopOp(symbols);
        if popped.Err? {
          return Err(popped.error);
        }
        symbols := popped.value.rest;
        return Ok(Some(Action0(popped.value.value)));
      }
      if !(0 <= action <= 5) {
        return Err(InvalidAction(action as int));
      }
      var rr := ReduceRule(action as nat, symbols);
      if rr.Err? {
        return Err(rr.error);
      }
      symbols := rr.value.symbols;
      if rr.value.toPop >= |states| {
        return Err(StackUnderflow);
      }
      states := states[..|states| - rr.value.toPop];
      states := states + [Goto(states[|states| - 1], 0)];
      r := Ok(None);
    }
  }

  // ---------------------------------------------------------------------------
  // The grammar the tables recognise.

  /** The six operation forms of the grammar and the operation each builds. */
  function Production(tokens: seq<Token>): Option<AssemblyOp> {
    if |tokens| == 1 && tokens[0] == OpReturnValue then Some(Raw(Abc.AbcOp.ReturnValue))
    else if |tokens| == 1 && tokens[0] == OpReturnVoid then Some(Raw(Abc.AbcOp.ReturnVoid))
    else if |tokens| == 2 && tokens[0].Identifier? && tokens[1] == Colon then Some(Label(tokens[0].text))
    else if |tokens| == 2 && tokens[0] == OpIfFalse && tokens[1].Identifier? then Some(IfFalse(tokens[1].text))
    else if |tokens| == 2 && tokens[0] == OpIfTrue && tokens[1].Identifier? then Some(IfTrue(tokens[1].text))
    else if |tokens| == 2 && tokens[0] == OpIfEq && tokens[1].Identifier? then Some(IfEq(tokens[1].text))
    else None
  }

  function Tokens(input: seq<Spanned>): (r: seq<Token>)
    ensures |r| == |input| && forall k :: 0 <= k < |input| ==> r[k] == input[k].token
  {
    seq(|input|, k requires 0 <= k < |input| => input[k].token)
  }

  /** One shift: the state the action on `t` leads to is pushed, or `None`
      when there is no shift on `t`. */
  function ShiftToken(states: seq<int8>, t: Token): (r: Option<seq<int8>>)
    requires |states| > 0 && AllStates(states)
    ensures r.Some? ==> |r.value| == |states| + 1 && r.value[..|states|] == states && AllStates(r.value)
  {
    match TokenToInteger(t)
    case None => None
    case Some(integer) =>
      var action := Action(states[|states| - 1], integer);
      if action > 0 then Some(states + [action - 1]) else None
  }

  /** The state stack after shifting every token in turn from the start
      state, or `None` when some token has no shift. */
  function ShiftStates(tokens: seq<Token>): (r: Option<seq<int8>>)
    ensures r.Some? ==> |r.value| == |tokens| + 1 && r.value[0] == 0 && AllStates(r.value)
    decreases |tokens|
  {
    if |tokens| == 0 then Some([0])
    else
      match ShiftStates(tokens[..|tokens| - 1])
      case None => None
      case Some(states) => ShiftToken(states, tokens[|tokens| - 1])
  }

  /** The symbol stack after shifting every token. */
  function ShiftSymbols(input: seq<Spanned>): Result<seq<SymbolTriple>, GrammarError>
    decreases |input|
  {
    if |input| == 0 then Ok([])
    else
      match ShiftSymbols(input[..|input| - 1])
      case Err(e) => Err(e)
      case Ok(symbols) =>
        var s := input[|input| - 1];
        match TokenToInteger(s.token)
        case None => Err(Unreachable)
        case Some(integer) =>
          match TokenToSymbol(integer, s.token)
          case Err(e) => Err(e)
          case Ok(sym) => Ok(symbols + [SymbolTriple(s.start, sym, s.end)])
  }

  /** Every token is shifted and then end of input is accepted. */
  predicate Recognised(tokens: seq<Token>) {
    var states := ShiftStates(tokens);
    states.Some? && AcceptsSpec(states.value, None) == Ok(true)
  }

  /** The first token: only the six that begin an operation shift. */
  lemma ShiftFirst(a: Token)
    ensures ShiftStates([a]) ==
      if a.Identifier? then Some([0, 2])
      else if a == OpIfEq then Some([0, 3])
      else if a == OpIfFalse then Some([0, 4])
      else if a == OpIfTrue then Some([0, 5])
      else if a == OpReturnValue then Some([0, 6])
      else if a == OpReturnVoid then Some([0, 7])
      else None
  {
    assert [a][..0] == [];
    assert ShiftStates([a]) == ShiftToken([0], a);
    if !a.OtherToken? {
      var integer := TokenToInteger(a).value;
      assert [0 as int8] + [Action(0, integer) - 1] == [0, Action(0, integer) - 1];
    }
  }

  /** Two tokens shift exactly when they are a label definition or a
      conditional jump with its label. */
  lemma ShiftSecond(a: Token, b: Token)
    ensures ShiftStates([a, b]) ==
      if a.Identifier? && b == Colon then Some([0, 2, 8])
      else if a == OpIfEq && b.Identifier? then Some([0, 3, 9])
      else if a == OpIfFalse && b.Identifier? then Some([0, 4, 10])
      else if a == OpIfTrue && b.Identifier? then Some([0, 5, 11])
      else None
  {
    assert [a, b][..1] == [a];
    ShiftFirst(a);
    var first := ShiftStates([a]);
    if first.Some? && !b.OtherToken? {
      var states := first.value;
      assert ShiftStates([a, b]) == ShiftToken(states, b);
      var integer := TokenToInteger(b).value;
      assert states + [Action(states[1], integer) - 1] == [0, states[1], Action(states[1], integer) - 1];
    }
  }

  /** At end of input: the start state and the states inside an operation
      reject, the six states after a complete operation reduce to state 1,
      which accepts. */
  lemma AcceptsAtEnd()
    ensures AcceptsSpec([0], None) == Ok(false)
    ensures forall k: int8 :: 2 <= k <= 7 ==> AcceptsSpec([0, k], None) == Ok(k >= 6)
    ensures forall j: int8, k: int8 :: 2 <= j <= 5 && k == j + 6 ==> AcceptsSpec([0, j, k], None) == Ok(true)
  {
    EndAfterOneToken();
    EndAfterTwoTokens();
  }

  lemma EndAfterOneToken()
    ensures forall k: int8 :: 2 <= k <= 7 ==> AcceptsSpec([0, k], None) == Ok(k >= 6)
  {
    forall k: int8 | 2 <= k <= 7
      ensures AcceptsSpec([0, k], None) == Ok(k >= 6)
    {
      if k == 6 {
        AcceptsAfterReduce([0, 6], 1, 1);
      } else if k == 7 {
        AcceptsAfterReduce([0, 7], 2, 1);
      } else {
        assert EofAction(k) == 0;
      }
    }
  }

  lemma EndAfterTwoTokens()
    ensures forall j: int8, k: int8 :: 2 <= j <= 5 && k == j + 6 ==> AcceptsSpec([0, j, k], None) == Ok(true)
  {
    forall j: int8, k: int8 | 2 <= j <= 5 && k == j + 6
      ensures AcceptsSpec([0, j, k], None) == Ok(true)
    {
      if j == 2 {
        AcceptsAfterReduce([0, 2, 8], 0, 2);
      } else if j == 3 {
        AcceptsAfterReduce([0, 3, 9], 5, 2);
      } else if j == 4 {
        AcceptsAfterReduce([0, 4, 10], 3, 2);
      } else {
        AcceptsAfterReduce([0, 5, 11], 4, 2);
      }
    }
  }

  /** A stack whose top reduces at end of input by a rule that pops all but
      the start state is left as the start state and state 1, which accepts. */
  lemma AcceptsAfterReduce(states: seq<int8>, rule: int, n: nat)
    requires AllStates(states) && |states| == n + 1 && states[0] == 0
    requires EofAction(states[n]) as int == -(rule + 1)
    requires SimulateReduce(rule) == Ok(Reduce(n, 0))
    ensures AcceptsSpec(states, None) == Ok(true)
  {
    var kept := states[..|states| - n];
    assert kept == [0];
    assert kept + [Goto(0, 0)] == [0, 1];
    assert AcceptsSpec([0, 1], None) == Ok(true);
  }

  /** The tables recognise exactly the six operation forms. */
  lemma RecognisedExactly(tokens: seq<Token>)
    ensures Recognised(tokens) <==> Production(tokens).Some?
  {
    if |tokens| == 0 {
      AcceptsAtEnd();
    } else if |tokens| == 1 {
      assert tokens == [tokens[0]];
      RecognisedOne(tokens[0]);
    } else if |tokens| == 2 {
      assert tokens == [tokens[0], tokens[1]];
      RecognisedTwo(tokens[0], tokens[1]);
    } else {
      NoLongerForms(tokens);
    }
  }

  lemma RecognisedOne(a: Token)
    ensures Recognised([a]) <==> Production([a]).Some?
  {
    AcceptsAtEnd();
    ShiftFirst(a);
  }

  lemma RecognisedTwo(a: Token, b: Token)
    ensures Recognised([a, b]) <==> Production([a, b]).Some?
  {
    ShiftSecond(a, b);
    if Production([a, b]).Some? {
      var states := ShiftStates([a, b]).value;
      assert states == [0, states[1], states[2]];
      assert 2 <= states[1] <= 5 && states[2] == states[1] + 6;
      AcceptsAtEnd();
      assert AcceptsSpec([0, states[1], states[2]], None) == Ok(true);
    } else {
      assert ShiftStates([a, b]).None?;
    }
  }

  /** No state reached after two tokens shifts a third. */
  lemma NoLongerForms(tokens: seq<Token>)
    requires |tokens| >= 3
    ensures ShiftStates(tokens).None?
  {
    var t3 := tokens[..3];
    assert t3[..2] == [t3[0], t3[1]];
    ShiftSecond(t3[0], t3[1]);
    if ShiftStates(t3[..2]).Some? && !t3[2].OtherToken? {
      var states := ShiftStates(t3[..2]).value;
      assert ShiftStates(t3) == ShiftToken(states, t3[2]);
    }
    assert ShiftStates(t3).None?;
    if ShiftStates(tokens).Some? {
      ShiftStatesPrefix(tokens, 3);
    }
  }

  /** The reduction the end-of-input action calls for, applied to the
      stacks after every token was shifted. */
  function EndReduction(input: seq<Spanned>): Result<Reduced, GrammarError>
    requires |input| > 0 && ShiftStates(Tokens(input)).Some?
  {
    var states := ShiftStates(Tokens(input)).value;
    match ShiftSymbols(input)
    case Err(e) => Err(e)
    case Ok(symbols) => ReduceSpec(-(EofAction(states[|states| - 1]) as int + 1), states, symbols)
  }

  /** The symbol a token of the grammar is shifted as. */
  function ShiftedSymbol(t: Token): Symbol {
    if t.Identifier? || t.StringLiteral? then Variant1(t.text) else Variant0(t)
  }

  lemma ShiftSymbolsTwo(x: Spanned, y: Spanned)
    requires !x.token.OtherToken? && !y.token.OtherToken?
    ensures ShiftSymbols([x]) == Ok([SymbolTriple(x.start, ShiftedSymbol(x.token), x.end)])
    ensures ShiftSymbols([x, y]) == Ok([SymbolTriple(x.start, ShiftedSymbol(x.token), x.end), SymbolTriple(y.start, ShiftedSymbol(y.token), y.end)])
  {
    assert [x][..0] == [];
    assert [x, y][..1] == [x];
    TokenToSymbolOfOwnIndex(x.token);
    TokenToSymbolOfOwnIndex(y.token);
    var sx := SymbolTriple(x.start, ShiftedSymbol(x.token), x.end);
    assert [] + [sx] == [sx];
    assert ShiftSymbols([x]) == Ok([sx]);
    var sy := SymbolTriple(y.start, ShiftedSymbol(y.token), y.end);
    assert [sx] + [sy] == [sx, sy];
  }

  /** The semantic actions build the operation each form stands for, spanning
      the form's tokens: `identifier ":"` a label definition, `iffalse`,
      `iftrue` and `ifeq` with a label the conditional jumps, and `returnvalue`
      and `returnvoid` the raw returns. The end-of-input reduction leaves the
      operation alone on the symbol stack over the states 0 and 1, and the
      accepting reduction in state 1 then returns it. */
  lemma ReductionsBuildOperation(input: seq<Spanned>)
    requires Production(Tokens(input)).Some?
    ensures |input| > 0 && ShiftStates(Tokens(input)).Some?
    ensures var whole := SymbolTriple(input[0].start, Variant2(Production(Tokens(input)).value), input[|input| - 1].end);
      EndReduction(input) == Ok(Reduced([0, 1], [whole], None)) &&
      ReduceSpec(-(EofAction(1) as int + 1), [0, 1], [whole]) == Ok(Reduced([0, 1], [], Production(Tokens(input))))
  {
    EndReductionBuildsWhole(input);
    var whole := SymbolTriple(input[0].start, Variant2(Production(Tokens(input)).value), input[|input| - 1].end);
    AcceptingReduction(whole);
  }

  /** The end-of-input reduction after a one- or two-token operation. */
  lemma EndReductionBuildsWhole(input: seq<Spanned>)
    requires Production(Tokens(input)).Some?
    ensures |input| > 0 && ShiftStates(Tokens(input)).Some?
    ensures EndReduction(input) ==
      Ok(Reduced([0, 1], [SymbolTriple(input[0].start, Variant2(Production(Tokens(input)).value), input[|input| - 1].end)], None))
  {
    var tokens := Tokens(input);
    if |input| == 1 {
      assert input == [input[0]] && tokens == [input[0].token];
      ReductionBuildsSingle(input[0]);
    } else {
      assert input == [input[0], input[1]] && tokens == [input[0].token, input[1].token];
      ReductionBuildsPair(input[0], input[1]);
    }
  }

  /** In state 1 the end-of-input action is the accepting rule, which pops the
      finished operation and returns it. */
  lemma AcceptingReduction(whole: SymbolTriple)
    requires whole.symbol.Variant2?
    ensures ReduceSpec(-(EofAction(1) as int + 1), [0, 1], [whole]) == Ok(Reduced([0, 1], [], Some(whole.symbol.op)))
  {
    assert EofAction(1) == -7;
    assert [whole][..0] == [];
    assert PopOp([whole]) == Ok(Popped(whole.start, whole.symbol.op, whole.end, []));
  }

  lemma ReductionBuildsSingle(x: Spanned)
    requires Production([x.token]).Some?
    ensures ShiftStates(Tokens([x])).Some?
    ensures EndReduction([x]) == Ok(Reduced([0, 1], [SymbolTriple(x.start, Variant2(Production([x.token]).value), x.end)], None))
  {
    assert Tokens([x]) == [x.token];
    ShiftFirst(x.token);
    ShiftSymbolsTwo(x, x);
    var sx := SymbolTriple(x.start, Variant0(x.token), x.end);
    var whole := SymbolTriple(x.start, Variant2(Production([x.token]).value), x.end);
    var states := ShiftStates([x.token]).value;
    var rule := -(EofAction(states[1]) as int + 1);
    assert rule == (if x.token == OpReturnValue then 1 else 2);
    RuleBuildsSingle(rule, [sx], whole);
    ReduceOnStart(rule, states, [sx], whole, 1);
  }

  lemma ReductionBuildsPair(x: Spanned, y: Spanned)
    requires Production([x.token, y.token]).Some?
    ensures ShiftStates(Tokens([x, y])).Some?
    ensures EndReduction([x, y]) == Ok(Reduced([0, 1], [SymbolTriple(x.start, Variant2(Production([x.token, y.token]).value), y.end)], None))
  {
    PairStates(x, y);
    var states := PairStateStack(x.token);
    var rule := -(EofAction(states[2]) as int + 1);
    var symbols := [SymbolTriple(x.start, ShiftedSymbol(x.token), x.end), SymbolTriple(y.start, ShiftedSymbol(y.token), y.end)];
    EndReductionOfPair(x, y, states);
    assert EndReduction([x, y]) == ReduceSpec(rule, states, symbols);
    PairReduces(x, y, states, rule);
  }

  /** The states a two-token operation leaves, chosen by its first token. */
  function PairStateStack(first: Token): seq<int8> {
    if first.Identifier? then [0, 2, 8] else if first == OpIfEq then [0, 3, 9]
    else if first == OpIfFalse then [0, 4, 10] else [0, 5, 11]
  }

  lemma PairStates(x: Spanned, y: Spanned)
    requires Production([x.token, y.token]).Some?
    ensures !x.token.OtherToken? && !y.token.OtherToken?
    ensures ShiftStates(Tokens([x, y])) == Some(PairStateStack(x.token))
  {
    assert Tokens([x, y]) == [x.token, y.token];
    ShiftSecond(x.token, y.token);
  }

  /** The end-of-input reduction of two tokens that shift, on the two
      shifted symbols. */
  lemma EndReductionOfPair(x: Spanned, y: Spanned, states: seq<int8>)
    requires !x.token.OtherToken? && !y.token.OtherToken?
    requires ShiftStates(Tokens([x, y])) == Some(states)
    ensures |states| == 3
    ensures EndReduction([x, y]) ==
      ReduceSpec(-(EofAction(states[2]) as int + 1), states,
                 [SymbolTriple(x.start, ShiftedSymbol(x.token), x.end), SymbolTriple(y.start, ShiftedSymbol(y.token), y.end)])
  {
    ShiftSymbolsTwo(x, y);
    assert |states| == |Tokens([x, y])| + 1 == 3;
    var symbols := [SymbolTriple(x.start, ShiftedSymbol(x.token), x.end), SymbolTriple(y.start, ShiftedSymbol(y.token), y.end)];
    assert ShiftSymbols([x, y]) == Ok(symbols);
    assert states[|states| - 1] == states[2];
  }

  /** The pair's end-of-input rule, applied to the two shifted symbols. */
  lemma PairReduces(x: Spanned, y: Spanned, states: seq<int8>, rule: int)
    requires Production([x.token, y.token]).Some? && !x.token.OtherToken? && !y.token.OtherToken?
    requires states == PairStateStack(x.token)
    requires rule == -(EofAction(states[2]) as int + 1)
    ensures var symbols := [SymbolTriple(x.start, ShiftedSymbol(x.token), x.end), SymbolTriple(y.start, ShiftedSymbol(y.token), y.end)];
      0 <= rule <= 5 &&
      ReduceSpec(rule, states, symbols) ==
        Ok(Reduced([0, 1], [SymbolTriple(x.start, Variant2(Production([x.token, y.token]).value), y.end)], None))
  {
    var whole := SymbolTriple(x.start, Variant2(Production([x.token, y.token]).value), y.end);
    var symbols := [SymbolTriple(x.start, ShiftedSymbol(x.token), x.end), SymbolTriple(y.start, ShiftedSymbol(y.token), y.end)];
    RuleBuildsPair(rule, symbols, whole);
    ReduceOnStart(rule, states, symbols, whole, 2);
  }

  /** A reduction rule that pops every state but the start state leaves its
      symbol over the states 0 and 1. */
  lemma ReduceOnStart(rule: nat, states: seq<int8>, symbols: seq<SymbolTriple>, whole: SymbolTriple, n: nat)
    requires rule <= 5 && ReduceRule(rule, symbols) == Ok(RuleResult([whole], n))
    requires 1 <= n && |states| == n + 1 && states[0] == 0
    ensures ReduceSpec(rule, states, symbols) == Ok(Reduced([0, 1], [whole], None))
  {
    assert states[..|states| - n] == [0];
    assert [0 as int8] + [Goto(0, 0)] == [0, 1];
  }

  /** The one-symbol rules build the raw returns from their keyword. */
  lemma RuleBuildsSingle(rule: nat, symbols: seq<SymbolTriple>, whole: SymbolTriple)
    requires rule in {1, 2} && |symbols| == 1 && symbols[0].symbol.Variant0?
    requires whole == SymbolTriple(symbols[0].start,
      Variant2(Raw(if rule == 1 then Abc.AbcOp.ReturnValue else Abc.AbcOp.ReturnVoid)), symbols[0].end)
    ensures ReduceRule(rule, symbols) == Ok(RuleResult([whole], 1))
  {
    assert symbols[..0] == [];
    assert [] + [whole] == [whole];
  }

  lemma RuleBuildsPair(rule: nat, symbols: seq<SymbolTriple>, whole: SymbolTriple)
    requires rule in {0, 3, 4, 5} && |symbols| == 2
    requires rule == 0 ==>
      (symbols[0].symbol.Variant1? && symbols[1].symbol.Variant0? &&
       whole == SymbolTriple(symbols[0].start, Variant2(Label(symbols[0].symbol.text)), symbols[1].end))
    requires rule != 0 ==>
      (symbols[0].symbol.Variant0? && symbols[1].symbol.Variant1? &&
       whole == SymbolTriple(symbols[0].start, Variant2(
         if rule == 3 then IfFalse(symbols[1].symbol.text) else if rule == 4 then IfTrue(symbols[1].symbol.text) else IfEq(symbols[1].symbol.text)),
         symbols[1].end))
    ensures ReduceRule(rule, symbols) == Ok(RuleResult([whole], 2))
  {
    assert symbols[..1] == [symbols[0]];
    assert [symbols[0]][..0] == [];
    assert [] + [whole] == [whole];
  }

  /** A prefix of a shiftable token sequence is shiftable, to a prefix of the
      states. */
  lemma {:induction false} ShiftStatesPrefix(tokens: seq<Token>, k: nat)
    requires k <= |tokens| && ShiftStates(tokens).Some?
    ensures ShiftStates(tokens[..k]).Some? && ShiftStates(tokens[..k]).value == ShiftStates(tokens).value[..k + 1]
    decreases |tokens|
  {
    if k < |tokens| {
      var prefix := tokens[..|tokens| - 1];
      ShiftStatesPrefix(prefix, k);
      assert prefix[..k] == tokens[..k];
    } else {
      assert tokens[..k] == tokens;
    }
  }
}
