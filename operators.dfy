/**
 * The enumerations whose members render as fixed SQL tokens:
 * operators (dcorm/operators.py), orderings (dcorm/ordering.py) and
 * operations (dcorm/operations.py).
 */
module Operators {
  import opened Outcomes
  import opened Values

  /**
   * The query operators. `Not` is not a member of the source enum; it is
   * the member that `~expr` refers to, added here so that negation can be
   * modelled as evidently intended (see `SourceMembers`).
   */
  datatype Operator =
    | And | Or | Add | Sub | Mul | Div | BinAnd | BinOr | Xor | Mod
    | Eq | Lt | Le | Gt | Ge | Ne | In | NotIn | Is | IsNot
    | Like | ILike | Between | Regexp | IRegexp | Concat | BitwiseNegation
    | Not

  /** The member's value, which its `__sql__` property also returns. */
  function Token(op: Operator): (s: string)
    ensures |s| > 0
    ensures s == "NOT" <==> op == Not
  {
    match op
    case And => "AND"
    case Or => "OR"
    case Add => "+"
    case Sub => "-"
    case Mul => "*"
    case Div => "/"
    case BinAnd => "&"
    case BinOr => "|"
    case Xor => "#"
    case Mod => "%"
    case Eq => "="
    case Lt => "<"
    case Le => "<="
    case Gt => ">"
    case Ge => ">="
    case Ne => "!="
    case In => "IN"
    case NotIn => "NOT IN"
    case Is => "IS"
    case IsNot => "IS NOT"
    case Like => "LIKE"
    case ILike => "ILIKE"
    case Between => "BETWEEN"
    case Regexp => "REGEXP"
    case IRegexp => "IREGEXP"
    case Concat => "||"
    case BitwiseNegation => "~"
    case Not => "NOT"
  }

  /** The members the source enum declares, in declaration order. */
  const SourceMembers: seq<Operator> := [
    And, Or, Add, Sub, Mul, Div, BinAnd, BinOr, Xor, Mod,
    Eq, Lt, Le, Gt, Ge, Ne, In, NotIn, Is, IsNot,
    Like, ILike, Between, Regexp, IRegexp, Concat, BitwiseNegation
  ]

  /** The declared member whose value is `value`, if any: a left inverse of `Token`. */
  function TokenInverse(value: string): Option<Operator> {
    if value == "AND" then Some(And)
    else if value == "OR" then Some(Or)
    else if value == "+" then Some(Add)
    else if value == "-" then Some(Sub)
    else if value == "*" then Some(Mul)
    else if value == "/" then Some(Div)
    else if value == "&" then Some(BinAnd)
    else if value == "|" then Some(BinOr)
    else if value == "#" then Some(Xor)
    else if value == "%" then Some(Mod)
    else if value == "=" then Some(Eq)
    else if value == "<" then Some(Lt)
    else if value == "<=" then Some(Le)
    else if value == ">" then Some(Gt)
    else if value == ">=" then Some(Ge)
    else if value == "!=" then Some(Ne)
    else if value == "IN" then Some(In)
    else if value == "NOT IN" then Some(NotIn)
    else if value == "IS" then Some(Is)
    else if value == "IS NOT" then Some(IsNot)
    else if value == "LIKE" then Some(Like)
    else if value == "ILIKE" then Some(ILike)
    else if value == "BETWEEN" then Some(Between)
    else if value == "REGEXP" then Some(Regexp)
    else if value == "IREGEXP" then Some(IRegexp)
    else if value == "||" then Some(Concat)
    else if value == "~" then Some(BitwiseNegation)
    else None
  }

  /** Every declared member is found again from its value. */
  lemma TokenInverseOfToken(op: Operator)
    ensures op != Not ==> TokenInverse(Token(op)) == Some(op)
  {
    match op
    case And => case Or => case Add => case Sub => case Mul => case Div =>
    case BinAnd => case BinOr => case Xor => case Mod => case Eq => case Lt =>
    case Le => case Gt => case Ge => case Ne => case In => case NotIn =>
    case Is => case IsNot => case Like => case ILike => case Between =>
    case Regexp => case IRegexp => case Concat => case BitwiseNegation =>
    case Not =>
  }

  /** The enum's declarations in order: each member's name and the member. */
  const Members: seq<(string, Operator)> := [
    ("AND", And), ("OR", Or), ("ADD", Add), ("SUB", Sub), ("MUL", Mul), ("DIV", Div),
    ("BIN_AND", BinAnd), ("BIN_OR", BinOr), ("XOR", Xor), ("MOD", Mod), ("EQ", Eq), ("LT", Lt),
    ("LE", Le), ("GT", Gt), ("GE", Ge), ("NE", Ne), ("IN", In), ("NOT_IN", NotIn), ("IS", Is),
    ("IS_NOT", IsNot), ("LIKE", Like), ("ILIKE", ILike), ("BETWEEN", Between), ("REGEXP", Regexp),
    ("IREGEXP", IRegexp), ("CONCAT", Concat), ("BITWISE_NEGATION", BitwiseNegation)
  ]

  /** Python rejects an enum that declares a name twice: the names are pairwise distinct. */
  lemma MemberNamesDistinct()
    ensures forall i, j :: 0 <= i < j < |Members| ==> Members[i].0 != Members[j].0
  {
  }

  /** The first entry of `table` with the given name. */
  function Lookup(table: seq<(string, Operator)>, name: string): Option<Operator>
  {
    if |table| == 0 then None
    else if table[0].0 == name then Some(table[0].1)
    else Lookup(table[1..], name)
  }

  /** A name no entry carries is not found. */
  lemma {:induction false} LookupAbsent(table: seq<(string, Operator)>, name: string)
    requires forall k :: 0 <= k < |table| ==> table[k].0 != name
    ensures Lookup(table, name) == None
  {
    if |table| > 0 {
      LookupAbsent(table[1..], name);
    }
  }

  /** A name carried first by the `k`-th entry finds that entry's member. */
  lemma {:induction false} LookupAt(table: seq<(string, Operator)>, k: nat, name: string)
    requires k < |table| && table[k].0 == name
    requires forall j :: 0 <= j < k ==> table[j].0 != name
    ensures Lookup(table, name) == Some(table[k].1)
    decreases k
  {
    if k > 0 {
      LookupAt(table[1..], k - 1, name);
    }
  }

  /** The declared member with the given name, if any. */
  function MemberNamed(name: string): Option<Operator>
  {
    Lookup(Members, name)
  }

  /** Every declared member is found again from its name. */
  lemma MemberNamedOfName(k: nat)
    requires k < |Members|
    ensures MemberNamed(Members[k].0) == Some(Members[k].1)
  {
    MemberNamesDistinct();
    LookupAt(Members, k, Members[k].0);
  }

  /** The enum declares no member named `NOT`. */
  lemma NotIsNoMemberName()
    ensures MemberNamed("NOT") == None
  {
    forall k | 0 <= k < |Members|
      ensures Members[k].0 != "NOT"
    {
      if k < 7 {
      } else if k < 14 {
      } else if k < 21 {
      } else {
      }
    }
    LookupAbsent(Members, "NOT");
  }

  /** `Operator.<name>`: the member, or AttributeError when the enum declares none by that name. */
  function Member(name: string): (r: Result<Operator, Error>)
    ensures r.Ok? ==> MemberNamed(name) == Some(r.value)
    ensures r.Err? ==> MemberNamed(name).None? && r.error == AttributeError
  {
    match MemberNamed(name)
    case Some(op) => Ok(op)
    case None => Err(AttributeError)
  }

  /** `SourceMembers` lists exactly the members other than `Not`. */
  lemma SourceMembersExceptNot(op: Operator)
    ensures op in SourceMembers <==> op != Not
  {
    match op
    case And => assert SourceMembers[0] == op;
    case Or => assert SourceMembers[1] == op;
    case Add => assert SourceMembers[2] == op;
    case Sub => assert SourceMembers[3] == op;
    case Mul => assert SourceMembers[4] == op;
    case Div => assert SourceMembers[5] == op;
    case BinAnd => assert SourceMembers[6] == op;
    case BinOr => assert SourceMembers[7] == op;
    case Xor => assert SourceMembers[8] == op;
    case Mod => assert SourceMembers[9] == op;
    case Eq => assert SourceMembers[10] == op;
    case Lt => assert SourceMembers[11] == op;
    case Le => assert SourceMembers[12] == op;
    case Gt => assert SourceMembers[13] == op;
    case Ge => assert SourceMembers[14] == op;
    case Ne => assert SourceMembers[15] == op;
    case In => assert SourceMembers[16] == op;
    case NotIn => assert SourceMembers[17] == op;
    case Is => assert SourceMembers[18] == op;
    case IsNot => assert SourceMembers[19] == op;
    case Like => assert SourceMembers[20] == op;
    case ILike => assert SourceMembers[21] == op;
    case Between => assert SourceMembers[22] == op;
    case Regexp => assert SourceMembers[23] == op;
    case IRegexp => assert SourceMembers[24] == op;
    case Concat => assert SourceMembers[25] == op;
    case BitwiseNegation => assert SourceMembers[26] == op;
    case Not =>
  }

  /** The declared members' values are pairwise distinct. */
  lemma TokenInjective(a: Operator, b: Operator)
    requires a != Not && b != Not
    ensures Token(a) == Token(b) ==> a == b
  {
    TokenInverseOfToken(a);
    TokenInverseOfToken(b);
  }

  /** Sort directions (dcorm/ordering.py). */
  datatype Ordering = Asc | Desc

  function OrderingToken(o: Ordering): string {
    match o
    case Asc => "ASC"
    case Desc => "DESC"
  }

  /** Statement kinds (dcorm/operations.py). */
  datatype Operation = Create | Delete | Insert | Select | Update

  function OperationToken(o: Operation): string {
    match o
    case Create => "CREATE"
    case Delete => "DELETE"
    case Insert => "INSERT"
    case Select => "SELECT"
    case Update => "UPDATE"
  }
}
