// Generated Cypher as tokens, and what the lexer sees of it once rendered.
module QueryText {
  import opened CypherText
  import opened Decimal
  import opened Quoting
  import opened Values

  predicate IsPlainChar(c: char) {
    !IsQuote(c) && c != '/' && c != '$'
  }

  predicate IsPlain(s: string) {
    forall i :: 0 <= i < |s| ==> IsPlainChar(s[i])
  }

  // Fixed template text: nothing in it quotes, opens a comment or names a parameter.
  type Plain = s: string | IsPlain(s) witness ""

  // Fixed text that also cannot extend a name it follows.
  type Gap = s: Plain | s != "" && !IsNameChar(s[0]) witness " "

  function Cats(ps: seq<Plain>): (r: Plain)
    ensures ps != [] && ps[0] != "" ==> r != "" && r[0] == ps[0][0]
  {
    if ps == [] then "" else ps[0] + Cats(ps[1..])
  }

  datatype Token =
    | Text(text: Plain)
    | Between(gap: Gap)
    | Name(name: string)        // a backtick-quoted identifier
    | Literal(literal: string)  // a fixed single-quoted string
    | Param(index: nat)         // $pN

  function ParamName(k: nat): string {
    "p" + Digits(k)
  }

  function RenderToken(t: Token): string {
    match t
    case Text(text) => text
    case Between(gap) => gap
    case Name(name) => QuoteIdentifier(name)
    case Literal(text) => QuoteLiteral(text)
    case Param(k) => "$" + ParamName(k)
  }

  function Render(ts: seq<Token>): string {
    if ts == [] then [] else RenderToken(ts[0]) + Render(ts[1..])
  }

  lemma {:induction false} RenderConcat(a: seq<Token>, b: seq<Token>)
    ensures Render(a + b) == Render(a) + Render(b)
  {
    if a == [] {
      assert a + b == b;
    } else {
      assert (a + b)[1..] == a[1..] + b;
      RenderConcat(a[1..], b);
    }
  }

  // ---------------------------------------------------------------- well-formed token lists

  // Nothing that could extend a parameter's name follows it.
  ghost predicate WellFormed(ts: seq<Token>) {
    forall i :: 0 <= i < |ts| - 1 && ts[i].Param? ==> !ts[i + 1].Text?
  }

  ghost function Params(ts: seq<Token>): set<nat> {
    set t | t in ts && t.Param? :: t.index
  }

  ghost function Names(ts: seq<Token>): set<string> {
    set t | t in ts && t.Name? :: t.name
  }

  ghost function Range(from: nat, to: nat): (r: set<nat>)
    ensures forall k :: k in r <==> from <= k < to
  {
    if from >= to then {} else Range(from, to - 1) + {to - 1}
  }

  // ---------------------------------------------------------------- what the lexer sees

  // The parameter names in order of appearance.
  function ParamList(ts: seq<Token>): seq<string> {
    if ts == [] then [] else (if ts[0].Param? then [ParamName(ts[0].index)] else []) + ParamList(ts[1..])
  }

  // The rendered text with every quoted token blanked.
  function Mask(ts: seq<Token>): string {
    if ts == [] then []
    else (if ts[0].Name? || ts[0].Literal? then Blanks(|RenderToken(ts[0])|) else RenderToken(ts[0])) + Mask(ts[1..])
  }

  lemma {:induction false} PlainIsCode(s: string, rest: string)
    requires forall i :: 0 <= i < |s| ==> !IsQuote(s[i]) && s[i] != '/'
    ensures Lex(s + rest, Code) == s + Lex(rest, Code)
  {
    if s == [] {
      assert s + rest == rest;
    } else {
      assert s + rest == [s[0]] + (s[1..] + rest);
      PlainIsCode(s[1..], rest);
    }
  }

  lemma TokenLexes(t: Token, rest: string)
    ensures Lex(RenderToken(t) + rest, Code)
         == (if t.Name? || t.Literal? then Blanks(|RenderToken(t)|) else RenderToken(t)) + Lex(rest, Code)
  {
    match t
    case Text(text) =>
      assert forall i :: 0 <= i < |text| ==> IsPlainChar(text[i]);
      PlainIsCode(text, rest);
    case Between(gap) =>
      assert forall i :: 0 <= i < |gap| ==> IsPlainChar(gap[i]);
      PlainIsCode(gap, rest);
    case Name(name) => IdentifierIsOpaque(name, rest);
    case Literal(text) => LiteralIsOpaque(text, rest);
    case Param(k) =>
      PlainIsCode("$" + ParamName(k), rest);
  }

  // Quoted text never reaches the code, whatever the caller put into it.
  lemma {:induction false} RenderedCode(ts: seq<Token>)
    ensures Lex(Render(ts), Code) == Mask(ts)
  {
    if ts != [] {
      TokenLexes(ts[0], Render(ts[1..]));
      RenderedCode(ts[1..]);
    }
  }

  // The parameter references in the code of a rendered query are exactly its
  // parameter tokens, in order.
  lemma {:induction false} RenderedRefs(ts: seq<Token>)
    requires WellFormed(ts)
    ensures Refs(Mask(ts)) == ParamList(ts)
  {
    if ts != [] {
      var rest := Mask(ts[1..]);
      RenderedRefs(ts[1..]);
      match ts[0] {
        case Param(k) =>
          RefsFind(ParamName(k), rest);
        case Text(text) =>
          assert forall i :: 0 <= i < |text| ==> IsPlainChar(text[i]);
          RefsSkip(text, rest);
        case Between(gap) =>
          assert forall i :: 0 <= i < |gap| ==> IsPlainChar(gap[i]);
          RefsSkip(gap, rest);
        case _ => RefsSkip(Blanks(|RenderToken(ts[0])|), rest);
      }
    }
  }

  lemma {:induction false} ParamListIsParams(ts: seq<Token>)
    ensures forall r :: r in ParamList(ts) <==> exists k :: k in Params(ts) && r == ParamName(k)
  {
    if ts != [] {
      ParamListIsParams(ts[1..]);
      forall r ensures r in ParamList(ts) <==> exists k :: k in Params(ts) && r == ParamName(k) {
        if r in ParamList(ts[1..]) {
          var k :| k in Params(ts[1..]) && r == ParamName(k);
          assert k in Params(ts);
        }
        if k :| k in Params(ts) && r == ParamName(k) {
          assert Param(k) in ts;
          assert Param(k) == ts[0] || k in Params(ts[1..]);
        }
        if ts[0].Param? {
          assert ts[0] in ts && ts[0].index in Params(ts);
        }
      }
    }
  }

  // ---------------------------------------------------------------- bound parameters

  // The parameter map that binds the values p0, p1, ...
  ghost function Bound(vals: seq<Value>): map<string, Value> {
    if vals == [] then map[]
    else Bound(vals[..|vals| - 1])[ParamName(|vals| - 1) := vals[|vals| - 1]]
  }

  lemma {:induction false} BoundKeys(vals: seq<Value>)
    ensures forall r :: r in Bound(vals) <==> exists k :: 0 <= k < |vals| && r == ParamName(k)
  {
    if vals != [] {
      var n := |vals| - 1;
      BoundKeys(vals[..n]);
      forall r | r in Bound(vals) ensures exists k :: 0 <= k < |vals| && r == ParamName(k) {
        if r != ParamName(n) {
          assert r in Bound(vals[..n]);
          var k :| 0 <= k < |vals[..n]| && r == ParamName(k);
        }
      }
    }
  }

  lemma {:induction false} BoundValues(vals: seq<Value>, k: nat)
    requires k < |vals|
    ensures ParamName(k) in Bound(vals) && Bound(vals)[ParamName(k)] == vals[k]
    ensures |Bound(vals)| == |vals|
  {
    BoundSize(vals);
    if k < |vals| - 1 {
      BoundValues(vals[..|vals| - 1], k);
      ParamNamesDistinct(|vals| - 1);
    }
  }

  lemma {:induction false} BoundSize(vals: seq<Value>)
    ensures |Bound(vals)| == |vals|
  {
    if vals != [] {
      var n := |vals| - 1;
      BoundSize(vals[..n]);
      BoundKeys(vals[..n]);
      ParamNamesDistinct(n);
    }
  }

  lemma ParamNamesDistinct(n: nat)
    ensures forall k: nat :: k != n ==> ParamName(k) != ParamName(n)
  {
    forall k: nat | ParamName(k) == ParamName(n) ensures k == n {
      assert ParamName(k)[1..] == Digits(k) && ParamName(n)[1..] == Digits(n);
      DigitsInjective(k, n);
    }
  }

  // A query whose code refers to exactly the parameters it binds.
  ghost predicate ParameterClosed(cypher: string, params: map<string, Value>) {
    forall r :: r in Refs(Lex(cypher, Code)) <==> r in params
  }

  lemma ClosedWhenParamsMatch(ts: seq<Token>, vals: seq<Value>)
    requires WellFormed(ts) && Params(ts) == Range(0, |vals|)
    ensures ParameterClosed(Render(ts), Bound(vals))
  {
    RenderedCode(ts);
    RenderedRefs(ts);
    ParamListIsParams(ts);
    BoundKeys(vals);
  }

  // With fewer references than bindings, every reference is still bound.
  lemma BoundWhenParamsWithin(ts: seq<Token>, vals: seq<Value>)
    requires WellFormed(ts) && Params(ts) <= Range(0, |vals|)
    ensures forall r :: r in Refs(Lex(Render(ts), Code)) ==> r in Bound(vals)
    ensures forall k :: 0 <= k < |vals| && k !in Params(ts) ==> ParamName(k) !in Refs(Lex(Render(ts), Code))
  {
    RenderedCode(ts);
    RenderedRefs(ts);
    ParamListIsParams(ts);
    BoundKeys(vals);
    forall k | 0 <= k < |vals| && k !in Params(ts) ensures ParamName(k) !in ParamList(ts) {
      ParamNamesDistinct(k);
    }
  }

  // Allocates sequentially named parameters.
  class Builder {
    var params: map<string, Value>
    ghost var vals: seq<Value>

    ghost predicate Valid()
      reads this
    {
      params == Bound(vals)
    }

    constructor ()
      ensures Valid() && vals == [] && params == map[]
    {
      params := map[];
      vals := [];
    }

    method Param(v: Value) returns (t: Token)
      requires Valid()
      modifies this
      ensures Valid() && vals == old(vals) + [v]
      ensures t == Token.Param(|old(vals)|)
      ensures params == old(params)[ParamName(|old(vals)|) := v]
    {
      BoundSize(vals);
      t := Token.Param(|params|);
      params := params[ParamName(|params|) := v];
      vals := vals + [v];
      assert vals[..|vals| - 1] == old(vals);
    }
  }
}
