/** The expression evaluator of shared/pkg/jq/evaluator.go. */
module Jq {
  import opened Values

  // --- Text helpers, with the meaning of Go's strings package -------------------------

  predicate HasSuffix(s: string, suffix: string) {
    |suffix| <= |s| && s[|s| - |suffix|..] == suffix
  }

  predicate IsSpace(c: char) {
    c == ' ' || c == '\t' || c == '\n' || c == '\r'
  }

  function TrimLeft(s: string): string {
    if s != "" && IsSpace(s[0]) then TrimLeft(s[1..]) else s
  }

  function TrimRight(s: string): string {
    if s != "" && IsSpace(s[|s| - 1]) then TrimRight(s[..|s| - 1]) else s
  }

  function TrimSpace(s: string): string {
    TrimRight(TrimLeft(s))
  }

  /** Splits at every dot; the result always has at least one part. */
  function SplitDots(path: string): (parts: seq<string>)
    ensures parts != []
  {
    if path == "" then [""]
    else
      var rest := SplitDots(path[1..]);
      if path[0] == '.' then [""] + rest
      else [[path[0]] + rest[0]] + rest[1..]
  }

  predicate HasArrayAccess(part: string) {
    '[' in part && ']' in part
  }

  // --- Path navigation ----------------------------------------------------------------

  /** Walks down nested objects; every part but the last has to name an object. */
  function Descend(current: Fields, parts: seq<string>): Option<Json>
    requires parts != []
    decreases |parts|
  {
    if HasArrayAccess(parts[0]) || parts[0] !in current then None
    else if |parts| == 1 then Some(current[parts[0]])
    else match current[parts[0]]
      case Obj(next) => Descend(next, parts[1..])
      case _ => None
  }

  function FromPath(data: Fields, path: string): Option<Json> {
    Descend(data, SplitDots(path))
  }

  method ExtractFromPath(data: Fields, path: string) returns (result: Option<Json>)
    ensures result == FromPath(data, path)
  {
    var parts := SplitDots(path);
    var current := data;
    for i := 0 to |parts|
      invariant i < |parts| && Descend(current, parts[i..]) == FromPath(data, path)
    {
      if HasArrayAccess(parts[i]) || parts[i] !in current {
        return None;
      }
      var value := current[parts[i]];
      if i == |parts| - 1 {
        return Some(value);
      }
      assert parts[i..][1..] == parts[i + 1..];
      if !value.Obj? {
        return None;
      }
      current := value.fields;
    }
  }

  // --- Expressions --------------------------------------------------------------------

  /** Text wrapped in `${` and `}`; anything else evaluates to itself. */
  predicate IsExpression(text: string) {
    "${" <= text && HasSuffix(text, "}")
  }

  function PathIn(text: string): string
    requires IsExpression(text)
  {
    assert text[1] == '{' && text[|text| - 1] == '}';
    TrimSpace(text[2..|text| - 1])
  }

  /** `now` is the formatted wall-clock time at the moment of the call. */
  function Builtin(jqPath: string, data: Fields, now: string): Option<Json> {
    if jqPath == "now()" then Some(Str(now))
    else if "$workflow.input." <= jqPath then FromPath(data, "workflow.input." + jqPath[16..])
    else if "$workflow." <= jqPath then FromPath(data, "workflow." + jqPath[10..])
    else if "$." <= jqPath then FromPath(data, jqPath[2..])
    else if "." <= jqPath then FromPath(data, jqPath[1..])
    else if '.' !in jqPath && '(' !in jqPath then Lookup(data, jqPath)
    else None
  }

  function Expression(text: string, data: Fields, now: string): Option<Json> {
    if text == "" then None
    else if !IsExpression(text) then Some(Str(text))
    else Builtin(PathIn(text), data, now)
  }

  /** The value with every string leaf evaluated; fails when some leaf fails. */
  function Evaluated(value: Json, data: Fields, now: string): Option<Json> {
    match value
    case Str(s) => Expression(s, data, now)
    case Obj(m) =>
      if forall k | k in m :: Evaluated(m[k], data, now).Some?
      then Some(Obj(map k | k in m :: Evaluated(m[k], data, now).value))
      else None
    case Arr(items) =>
      if forall i | 0 <= i < |items| :: Evaluated(items[i], data, now).Some?
      then Some(Arr(seq(|items|, i requires 0 <= i < |items| => Evaluated(items[i], data, now).value)))
      else None
    case _ => Some(value)
  }

  // --- A value that is not JSON -------------------------------------------------------

  /** Expressions that yield the root field `now` itself. */
  predicate NamesNow(text: string) {
    IsExpression(text) && (PathIn(text) == "now" || PathIn(text) == ".now" || PathIn(text) == "$.now")
  }

  predicate AnyNamesNow(value: Json) {
    match value
    case Str(s) => NamesNow(s)
    case Obj(m) => exists k | k in m :: AnyNamesNow(m[k])
    case Arr(items) => exists i | 0 <= i < |items| :: AnyNamesNow(items[i])
    case _ => false
  }

  lemma {:induction false} OnePart(path: string)
    ensures |SplitDots(path)| == 1 <==> '.' !in path
    ensures '.' !in path ==> SplitDots(path) == [path]
  {
    if path != "" {
      OnePart(path[1..]);
      assert path == [path[0]] + path[1..];
    }
  }

  /** Whatever is not an object is found under `now` by its bare name alone. */
  lemma FoundUnderNow(data: Fields, path: string, v: Json)
    requires !v.Obj?
    ensures path == "now" ==> FromPath(data["now" := v], path) == Some(v)
    ensures path != "now" ==>
              FromPath(data["now" := v], path)
              == if SplitDots(path)[0] == "now" then None else FromPath(data, path)
  {
    OnePart(path);
    OnePart("now");
  }

  /** An expression yields what stands under `now`, whatever that is, exactly if it names it. */
  lemma NamesNowIff(text: string, data: Fields, now: string)
    ensures NamesNow(text) <==> forall v: Json | !v.Obj? :: Expression(text, data["now" := v], now) == Some(v)
  {
    forall v: Json | !v.Obj? ensures NamesNow(text) ==> Expression(text, data["now" := v], now) == Some(v) {
      if NamesNow(text) {
        FoundUnderNow(data, "now", v);
      }
    }
    if !NamesNow(text) {
      assert Expression(text, data["now" := Null], now) != Some(Null)
             || Expression(text, data["now" := Bool(true)], now) != Some(Bool(true)) by {
        if IsExpression(text) {
          OtherPathsIgnoreNow(PathIn(text), data, now);
        }
      }
      assert !Null.Obj? && !Bool(true).Obj?;
    }
  }

  lemma OtherPathsIgnoreNow(path: string, data: Fields, now: string)
    requires path != "now" && path != ".now" && path != "$.now"
    ensures Builtin(path, data["now" := Null], now) == Builtin(path, data["now" := Bool(true)], now)
  {
    if "$workflow.input." <= path {
      FoundUnderNow(data, "workflow.input." + path[16..], Null);
      FoundUnderNow(data, "workflow.input." + path[16..], Bool(true));
    } else if "$workflow." <= path {
      FoundUnderNow(data, "workflow." + path[10..], Null);
      FoundUnderNow(data, "workflow." + path[10..], Bool(true));
    } else if "$." <= path {
      FoundUnderNow(data, path[2..], Null);
      FoundUnderNow(data, path[2..], Bool(true));
    } else if "." <= path {
      FoundUnderNow(data, path[1..], Null);
      FoundUnderNow(data, path[1..], Bool(true));
    }
  }

  method EvaluateMap(input: Fields, data: Fields, now: string) returns (result: Option<Fields>)
    ensures result.Some? == Evaluated(Obj(input), data, now).Some?
    ensures result.Some? ==> Evaluated(Obj(input), data, now) == Some(Obj(result.value))
    decreases Obj(input), 0
  {
    var evaluated: Fields := map[];
    var left := input.Keys;
    while left != {}
      invariant left <= input.Keys && evaluated.Keys == input.Keys - left
      invariant forall k | k in evaluated :: Evaluated(input[k], data, now) == Some(evaluated[k])
      decreases left
    {
      var key :| key in left;
      var value := EvaluateValue(input[key], data, now);
      if value.None? {
        return None;
      }
      evaluated := evaluated[key := value.value];
      left := left - {key};
    }
    assert evaluated == Evaluated(Obj(input), data, now).value.fields;
    result := Some(evaluated);
  }

  method EvaluateValue(value: Json, data: Fields, now: string) returns (result: Option<Json>)
    ensures result == Evaluated(value, data, now)
    decreases value, 1
  {
    match value
    case Str(s) => result := Expression(s, data, now);
    case Obj(m) =>
      var fields := EvaluateMap(m, data, now);
      result := if fields.Some? then Some(Obj(fields.value)) else None;
    case Arr(items) =>
      var evaluated: seq<Json> := [];
      for i := 0 to |items|
        invariant |evaluated| == i
        invariant forall j | 0 <= j < i :: Evaluated(items[j], data, now) == Some(evaluated[j])
      {
        var item := EvaluateValue(items[i], data, now);
        if item.None? {
          return None;
        }
        evaluated := evaluated + [item.value];
      }
      assert evaluated == seq(|items|, i requires 0 <= i < |items| => Evaluated(items[i], data, now).value);
      result := Some(Arr(evaluated));
    case _ => result := Some(value);
  }

  // --- What evaluation does to a document, position by position -----------------------

  datatype Step = Key(k: string) | Index(i: nat)

  /** The subdocument at a position, when the document has that position. */
  function At(value: Json, path: seq<Step>): Option<Json> {
    if path == [] then Some(value)
    else match (value, path[0])
      case (Obj(m), Key(k)) => if k in m then At(m[k], path[1..]) else None
      case (Arr(items), Index(i)) => if i < |items| then At(items[i], path[1..]) else None
      case _ => None
  }

  /** At every position of the input the output holds the evaluation of what was there, so
      key sets, lengths, nesting and primitive leaves stay as they were. */
  lemma {:induction false} EvaluationIsPointwise(value: Json, data: Fields, now: string, path: seq<Step>)
    requires Evaluated(value, data, now).Some?
    requires At(value, path).Some?
    ensures At(Evaluated(value, data, now).value, path) == Evaluated(At(value, path).value, data, now)
    ensures var before, after := At(value, path).value, At(Evaluated(value, data, now).value, path);
            after.Some?
            && (before.Obj? ==> after.value.Obj? && after.value.fields.Keys == before.fields.Keys)
            && (before.Arr? ==> after.value.Arr? && |after.value.items| == |before.items|)
            && (before.Str? ==> after == Expression(before.s, data, now))
            && (before.Null? || before.Bool? || before.Num? ==> after.value == before)
    decreases path
  {
    if path != [] {
      match value {
        case Obj(m) => EvaluationIsPointwise(m[path[0].k], data, now, path[1..]);
        case Arr(items) => EvaluationIsPointwise(items[path[0].i], data, now, path[1..]);
        case _ =>
      }
    }
  }

  ghost predicate LeafFails(value: Json, path: seq<Step>, data: Fields, now: string) {
    At(value, path).Some? && At(value, path).value.Str?
    && Expression(At(value, path).value.s, data, now).None?
  }

  /** Evaluation fails exactly when some string leaf fails. */
  lemma EvaluationFailsAtALeaf(value: Json, data: Fields, now: string)
    ensures Evaluated(value, data, now).None? <==> exists path :: LeafFails(value, path, data, now)
  {
    if Evaluated(value, data, now).None? {
      var path := FailingLeaf(value, data, now);
    }
    forall path | LeafFails(value, path, data, now) ensures Evaluated(value, data, now).None? {
      if Evaluated(value, data, now).Some? {
        EvaluationIsPointwise(value, data, now, path);
      }
    }
  }

  lemma {:induction false} FailingLeaf(value: Json, data: Fields, now: string) returns (path: seq<Step>)
    requires Evaluated(value, data, now).None?
    ensures LeafFails(value, path, data, now)
  {
    match value {
      case Str(_) => path := [];
      case Obj(m) =>
        var k :| k in m && Evaluated(m[k], data, now).None?;
        var rest := FailingLeaf(m[k], data, now);
        path := [Key(k)] + rest;
        assert path[1..] == rest;
      case Arr(items) =>
        var i :| 0 <= i < |items| && Evaluated(items[i], data, now).None?;
        var rest := FailingLeaf(items[i], data, now);
        path := [Index(i)] + rest;
        assert path[1..] == rest;
    }
  }

  ghost predicate PlainLeaf(value: Json, path: seq<Step>) {
    At(value, path).Some? && At(value, path).value.Str? ==>
      At(value, path).value.s != "" && !IsExpression(At(value, path).value.s)
  }

  /** Documents without expressions and without empty strings come back unchanged. */
  lemma {:induction false} EvaluationOfPlainDataIsIdentity(value: Json, data: Fields, now: string)
    requires forall path :: PlainLeaf(value, path)
    ensures Evaluated(value, data, now) == Some(value)
  {
    match value {
      case Str(_) => assert PlainLeaf(value, []);
      case Obj(m) =>
        forall k | k in m ensures Evaluated(m[k], data, now) == Some(m[k]) {
          forall path ensures PlainLeaf(m[k], path) {
            assert PlainLeaf(value, [Key(k)] + path) && ([Key(k)] + path)[1..] == path;
          }
          EvaluationOfPlainDataIsIdentity(m[k], data, now);
        }
        assert Evaluated(value, data, now).value.fields == m;
      case Arr(items) =>
        forall i | 0 <= i < |items| ensures Evaluated(items[i], data, now) == Some(items[i]) {
          forall path ensures PlainLeaf(items[i], path) {
            assert PlainLeaf(value, [Index(i)] + path) && ([Index(i)] + path)[1..] == path;
          }
          EvaluationOfPlainDataIsIdentity(items[i], data, now);
        }
        assert seq(|items|, i requires 0 <= i < |items| => Evaluated(items[i], data, now).value) == items;
      case _ =>
    }
  }
}
