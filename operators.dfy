/**
  The operator registry of the interpreter: the closed set of operators, the
  descriptor of each (identity, arity, precedence), and the constant table
  from operator symbols to descriptors that the parser consults.
*/
module Registry {
  import opened Optional

  datatype Operator =
    | Add | Sub | Mult | Div | Mod | Equal | Pow | Sqrt | Cos | Sin | Abs
    | Round | Neg | PI | Min | Max | LT | LTE | GT | GTE | Rand | Dice

  /** How many operands an operator takes: none, `left` only, or both. */
  datatype OperatorType = Const | Unary | Binary

  /** Precedence is a relative weight: a higher value binds tighter. */
  datatype OperatorDescriptor = OperatorDescriptor(op: Operator, opType: OperatorType, precedence: int)

  /** The symbol table, fixed at start-up and never changed. */
  const Operators: map<string, OperatorDescriptor> := map[
    "+"     := OperatorDescriptor(Add,   Binary, 2),
    "-"     := OperatorDescriptor(Sub,   Binary, 2),
    "*"     := OperatorDescriptor(Mult,  Binary, 5),
    "/"     := OperatorDescriptor(Div,   Binary, 5),
    "%"     := OperatorDescriptor(Mod,   Binary, 10),
    "^"     := OperatorDescriptor(Pow,   Binary, 15),
    "sqrt"  := OperatorDescriptor(Sqrt,  Unary,  15),
    "cos"   := OperatorDescriptor(Cos,   Unary,  12),
    "sin"   := OperatorDescriptor(Sin,   Unary,  12),
    "abs"   := OperatorDescriptor(Abs,   Unary,  8),
    "round" := OperatorDescriptor(Round, Unary,  8),
    "!"     := OperatorDescriptor(Neg,   Unary,  50),
    "pi"    := OperatorDescriptor(PI,    Const,  90),
    "min"   := OperatorDescriptor(Min,   Binary, 80),
    "max"   := OperatorDescriptor(Max,   Binary, 90),
    "=="    := OperatorDescriptor(Equal, Binary, 0),
    "eq"    := OperatorDescriptor(Equal, Binary, 0),
    "lt"    := OperatorDescriptor(LT,    Binary, 0),
    "lte"   := OperatorDescriptor(LTE,   Binary, 0),
    "gt"    := OperatorDescriptor(GT,    Binary, 0),
    "gte"   := OperatorDescriptor(GTE,   Binary, 0),
    "rand"  := OperatorDescriptor(Rand,  Const,  90),
    "d"     := OperatorDescriptor(Dice,  Binary, 90),
    "D"     := OperatorDescriptor(Dice,  Binary, 90)
  ]

  /** The symbols the interpreter recognises as operators. */
  const Symbols: set<string> := {
    "+", "-", "*", "/", "%", "^", "sqrt", "cos", "sin", "abs", "round", "!",
    "pi", "min", "max", "==", "eq", "lt", "lte", "gt", "gte", "rand", "d", "D"
  }

  /** The same symbols, grouped by length: a proof device for TableSize only. */
  const SymbolsOfLength1: set<string> := {"!", "%", "*", "+", "-", "/", "D", "^", "d"}
  const SymbolsOfLength2: set<string> := {"==", "eq", "gt", "lt", "pi"}
  const SymbolsOfLength3: set<string> := {"abs", "cos", "gte", "lte", "min", "max", "sin"}
  const SymbolsOfLength4: set<string> := {"rand", "sqrt"}
  const SymbolsOfLength5: set<string> := {"round"}

  /** The descriptor of each operator, listed per operator rather than per symbol. */
  function DescriptorOf(op: Operator): (d: OperatorDescriptor)
    ensures d.op == op
    ensures d.precedence >= 0
  {
    match op
    case Add   => OperatorDescriptor(Add,   Binary, 2)
    case Sub   => OperatorDescriptor(Sub,   Binary, 2)
    case Mult  => OperatorDescriptor(Mult,  Binary, 5)
    case Div   => OperatorDescriptor(Div,   Binary, 5)
    case Mod   => OperatorDescriptor(Mod,   Binary, 10)
    case Pow   => OperatorDescriptor(Pow,   Binary, 15)
    case Sqrt  => OperatorDescriptor(Sqrt,  Unary,  15)
    case Cos   => OperatorDescriptor(Cos,   Unary,  12)
    case Sin   => OperatorDescriptor(Sin,   Unary,  12)
    case Abs   => OperatorDescriptor(Abs,   Unary,  8)
    case Round => OperatorDescriptor(Round, Unary,  8)
    case Neg   => OperatorDescriptor(Neg,   Unary,  50)
    case PI    => OperatorDescriptor(PI,    Const,  90)
    case Min   => OperatorDescriptor(Min,   Binary, 80)
    case Max   => OperatorDescriptor(Max,   Binary, 90)
    case Equal => OperatorDescriptor(Equal, Binary, 0)
    case LT    => OperatorDescriptor(LT,    Binary, 0)
    case LTE   => OperatorDescriptor(LTE,   Binary, 0)
    case GT    => OperatorDescriptor(GT,    Binary, 0)
    case GTE   => OperatorDescriptor(GTE,   Binary, 0)
    case Rand  => OperatorDescriptor(Rand,  Const,  90)
    case Dice  => OperatorDescriptor(Dice,  Binary, 90)
  }

  predicate IsComparison(op: Operator) {
    op in {Equal, LT, LTE, GT, GTE}
  }

  /**
    Looking a symbol up in the table: absent symbols give None, and every
    symbol found, alias or not, gives the one descriptor of its operator.
  */
  function Lookup(symbol: string): (d: Option<OperatorDescriptor>)
    ensures d.Some? <==> symbol in Symbols
    ensures d.Some? ==> d.value == DescriptorOf(d.value.op)
  {
    if symbol in Operators then Some(Operators[symbol]) else None
  }

  /** A symbol for every operator: no member of the enumeration is unreachable from the table. */
  function SymbolOf(op: Operator): (s: string)
    ensures s in Operators && Operators[s].op == op
  {
    match op
    case Add => "+"
    case Sub => "-"
    case Mult => "*"
    case Div => "/"
    case Mod => "%"
    case Pow => "^"
    case Sqrt => "sqrt"
    case Cos => "cos"
    case Sin => "sin"
    case Abs => "abs"
    case Round => "round"
    case Neg => "!"
    case PI => "pi"
    case Min => "min"
    case Max => "max"
    case Equal => "=="
    case LT => "lt"
    case LTE => "lte"
    case GT => "gt"
    case GTE => "gte"
    case Rand => "rand"
    case Dice => "d"
  }

  /** Two symbols naming the same operator have identical descriptors. */
  lemma AliasesAgree(s1: string, s2: string)
    requires s1 in Operators && s2 in Operators
    requires Operators[s1].op == Operators[s2].op
    ensures Operators[s1] == Operators[s2]
  {
    assert Lookup(s1).value == DescriptorOf(Operators[s1].op);
    assert Lookup(s2).value == DescriptorOf(Operators[s2].op);
  }

  lemma AliasExamples()
    ensures Operators["=="] == Operators["eq"] == OperatorDescriptor(Equal, Binary, 0)
    ensures Operators["d"] == Operators["D"] == OperatorDescriptor(Dice, Binary, 90)
    ensures "nonexistent" !in Operators
  {
  }

  /**
    The precedence ladder: comparisons, and only comparisons, sit at 0, the
    lowest weight; then + and -, then * and /, then %, then ^.
  */
  lemma PrecedenceOrder(s: string)
    requires s in Operators
    ensures Operators[s].precedence >= 0
    ensures Operators[s].precedence == 0 <==> IsComparison(Operators[s].op)
    ensures Operators["+"].precedence == Operators["-"].precedence < Operators["*"].precedence
    ensures Operators["*"].precedence == Operators["/"].precedence < Operators["%"].precedence
    ensures Operators["%"].precedence < Operators["^"].precedence
  {
    assert Operators[s] == DescriptorOf(Operators[s].op) by { assert Lookup(s).Some?; }
  }

  predicate AllOfLength(symbols: set<string>, n: nat) {
    forall s :: s in symbols ==> |s| == n
  }

  /** Symbols of different lengths are different, so the sizes of the groups add up. */
  lemma DisjointUnionSize(a: set<string>, b: set<string>, n: nat)
    requires AllOfLength(a, n)
    requires forall s :: s in b ==> |s| != n
    ensures |a + b| == |a| + |b|
  {
    assert a * b == {};
  }

  lemma KeysAreSymbols()
    ensures Operators.Keys == Symbols
  {
  }

  lemma SymbolsByLength()
    ensures Symbols == SymbolsOfLength5 + (SymbolsOfLength4 + (SymbolsOfLength3 + (SymbolsOfLength2 + SymbolsOfLength1)))
  {
  }

  lemma GroupSizes()
    ensures |SymbolsOfLength1| == 9 && |SymbolsOfLength2| == 5 && |SymbolsOfLength3| == 7
    ensures |SymbolsOfLength4| == 2 && |SymbolsOfLength5| == 1
  {
  }

  lemma GroupLengths()
    ensures AllOfLength(SymbolsOfLength1, 1) && AllOfLength(SymbolsOfLength2, 2)
    ensures AllOfLength(SymbolsOfLength3, 3) && AllOfLength(SymbolsOfLength4, 4)
    ensures AllOfLength(SymbolsOfLength5, 5)
  {
  }

  /**
    The table has 24 distinct keys, one per entry of the initialiser: no key
    is repeated (a repeated key would make the dictionary initialiser throw).
    Counting 24 strings at once is beyond the solver's budget, so the proof
    counts the groups of symbols of each length and adds them up; the groups
    and the lemmas about them serve this proof and model nothing else.
  */
  lemma TableSize()
    ensures |Operators| == 24
  {
    KeysAreSymbols();
    SymbolsByLength();
    GroupSizes();
    GroupLengths();
    DisjointUnionSize(SymbolsOfLength2, SymbolsOfLength1, 2);
    DisjointUnionSize(SymbolsOfLength3, SymbolsOfLength2 + SymbolsOfLength1, 3);
    DisjointUnionSize(SymbolsOfLength4, SymbolsOfLength3 + (SymbolsOfLength2 + SymbolsOfLength1), 4);
    DisjointUnionSize(SymbolsOfLength5, SymbolsOfLength4 + (SymbolsOfLength3 + (SymbolsOfLength2 + SymbolsOfLength1)), 5);
  }
}
