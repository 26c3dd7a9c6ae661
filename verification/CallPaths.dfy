/** The path splitter and path evaluator of executor/internal/executor/call_task_executor.go,
    and how they compare with the evaluator of module Jq. */
module CallPaths {
  import opened Values
  import Jq

  // --- Splitting ----------------------------------------------------------------------

  function Flush(current: string): seq<string> {
    if current != "" then [current] else []
  }

  /** Whether the reader is inside brackets after `c`. Brackets do not nest. */
  function InsideAfter(c: char, inBrackets: bool): bool {
    if c == '[' then true else if c == ']' then false else inBrackets
  }

  /** The parts of `current + path`, where `current` was already read. */
  function SplitFrom(path: string, current: string, inBrackets: bool): seq<string> {
    if path == "" then Flush(current)
    else if path[0] == '.' && !inBrackets then Flush(current) + SplitFrom(path[1..], "", false)
    else SplitFrom(path[1..], current + [path[0]], InsideAfter(path[0], inBrackets))
  }

  function Split(path: string): seq<string> {
    SplitFrom(path, "", false)
  }

  method SplitPathWithArrays(path: string) returns (parts: seq<string>)
    ensures parts == Split(path)
  {
    parts := [];
    var current := "";
    var inBrackets := false;
    for i := 0 to |path|
      invariant parts + SplitFrom(path[i..], current, inBrackets) == Split(path)
    {
      assert path[i..][1..] == path[i + 1..];
      match path[i] {
        case '[' =>
          inBrackets := true;
          current := current + [path[i]];
        case ']' =>
          inBrackets := false;
          current := current + [path[i]];
        case '.' =>
          if inBrackets {
            current := current + [path[i]];
          } else {
            if current != "" {
              parts := parts + [current];
              current := "";
            }
          }
        case _ =>
          current := current + [path[i]];
      }
    }
    assert path[|path|..] == "";
    if current != "" {
      parts := parts + [current];
    }
  }

  function Join(parts: seq<string>): string {
    if parts == [] then ""
    else if |parts| == 1 then parts[0]
    else parts[0] + "." + Join(parts[1..])
  }

  /** Every dot is inside brackets and the last bracket is closed. */
  predicate Sealed(part: string, inBrackets: bool) {
    if part == "" then !inBrackets
    else (part[0] == '.' ==> inBrackets) && Sealed(part[1..], InsideAfter(part[0], inBrackets))
  }

  lemma {:induction false} SplitAbsorbsSealedPart(part: string, rest: string, current: string, inBrackets: bool)
    requires Sealed(part, inBrackets)
    ensures SplitFrom(part + rest, current, inBrackets) == SplitFrom(rest, current + part, false)
    decreases |part|
  {
    if part == "" {
      assert part + rest == rest && current + part == current;
    } else {
      assert (part + rest)[1..] == part[1..] + rest;
      assert current + [part[0]] + part[1..] == current + part;
      SplitAbsorbsSealedPart(part[1..], rest, current + [part[0]], InsideAfter(part[0], inBrackets));
    }
  }

  lemma SplitFirstPart(part: string, rest: string)
    requires part != "" && Sealed(part, false)
    ensures Split(part) == [part]
    ensures Split(part + "." + rest) == [part] + Split(rest)
  {
    assert "" + part == part;
    SplitAbsorbsSealedPart(part, "", "", false);
    assert part + "" == part;
    var tail := "." + rest;
    SplitAbsorbsSealedPart(part, tail, "", false);
    assert part + tail == part + "." + rest;
    assert tail[0] == '.' && tail[1..] == rest;
  }

  /** Splitting undoes joining with dots. */
  lemma {:induction false} SplitInvertsJoin(parts: seq<string>)
    requires forall p | p in parts :: p != "" && Sealed(p, false)
    ensures Split(Join(parts)) == parts
  {
    if parts != [] {
      assert parts[0] in parts;
      assert forall p | p in parts[1..] :: p in parts;
      SplitFirstPart(parts[0], Join(parts[1..]));
      SplitInvertsJoin(parts[1..]);
      assert parts == [parts[0]] + parts[1..];
    }
  }

  /** No dot outside brackets opens, closes or doubles: each one has a part on both sides.
      `open` says whether the current part has a character already. */
  predicate Tidy(path: string, open: bool, inBrackets: bool) {
    if path == "" then open
    else if path[0] == '.' && !inBrackets then open && Tidy(path[1..], false, false)
    else Tidy(path[1..], true, InsideAfter(path[0], inBrackets))
  }

  function Length(parts: seq<string>): nat {
    if parts == [] then 0 else |parts[0]| + 1 + Length(parts[1..])
  }

  lemma {:induction false} JoinLength(parts: seq<string>)
    ensures parts != [] ==> |Join(parts)| + 1 == Length(parts)
  {
    if |parts| > 1 {
      JoinLength(parts[1..]);
    }
  }

  lemma {:induction false} SplitLength(path: string, current: string, inBrackets: bool)
    ensures Length(SplitFrom(path, current, inBrackets)) <= |current| + |path| + 1
    ensures current == "" && path != "" && path[0] == '.' && !inBrackets
            ==> Length(SplitFrom(path, current, inBrackets)) <= |path|
    decreases |path|
  {
    if path != "" {
      if path[0] == '.' && !inBrackets {
        SplitLength(path[1..], "", false);
        if current != "" {
          assert (Flush(current) + SplitFrom(path[1..], "", false))[1..] == SplitFrom(path[1..], "", false);
        } else {
          assert Flush(current) + SplitFrom(path[1..], "", false) == SplitFrom(path[1..], "", false);
        }
      } else {
        SplitLength(path[1..], current + [path[0]], InsideAfter(path[0], inBrackets));
      }
    }
  }

  lemma {:induction false} TidyRejoins(path: string, current: string, inBrackets: bool)
    ensures Tidy(path, current != "", inBrackets)
            ==> SplitFrom(path, current, inBrackets) != []
                && Join(SplitFrom(path, current, inBrackets)) == current + path
    ensures !Tidy(path, current != "", inBrackets)
            ==> Length(SplitFrom(path, current, inBrackets)) < |current| + |path| + 1
    decreases |path|
  {
    if path == "" {
    } else if path[0] == '.' && !inBrackets {
      var rest := SplitFrom(path[1..], "", false);
      TidyRejoins(path[1..], "", false);
      SplitLength(path[1..], "", false);
      if current == "" {
        assert Flush(current) + rest == rest;
      } else {
        assert (Flush(current) + rest)[1..] == rest;
        assert current + "." + path[1..] == current + path;
      }
    } else {
      var extended := current + [path[0]];
      assert extended + path[1..] == current + path;
      TidyRejoins(path[1..], extended, InsideAfter(path[0], inBrackets));
    }
  }

  /** Joining undoes splitting exactly on the paths without an empty part. */
  lemma JoinInvertsSplitIffTidy(path: string)
    ensures Join(Split(path)) == path <==> path == "" || Tidy(path, false, false)
  {
    if path != "" {
      TidyRejoins(path, "", false);
      JoinLength(Split(path));
      assert "" + path == path;
    }
  }

  // --- Extraction ---------------------------------------------------------------------

  /** `Panics` is Go's slice-bounds panic, reached when a part closes before it opens. */
  datatype Outcome = Value(v: Json) | Missing | Panics

  function IndexOf(c: char, s: string): (i: nat)
    requires c in s
    ensures i < |s| && s[i] == c && c !in s[..i]
  {
    if s[0] == c then 0
    else
      var i := IndexOf(c, s[1..]);
      assert s[..i + 1] == [s[0]] + s[1..][..i];
      i + 1
  }

  predicate IsDigit(c: char) { '0' <= c <= '9' }

  function DigitsValue(s: string): nat
    requires forall c | c in s :: IsDigit(c)
  {
    if s == "" then 0
    else
      assert IsDigit(s[|s| - 1]);
      DigitsValue(s[..|s| - 1]) * 10 + (s[|s| - 1] as int - '0' as int)
  }

  /** strconv.Atoi without its overflow error: an index beyond 64 bits is out of bounds anyway. */
  function Atoi(s: string): Option<int> {
    var digits := if s != "" && (s[0] == '-' || s[0] == '+') then s[1..] else s;
    if digits == "" || exists c | c in digits :: !IsDigit(c) then None
    else
      var value: int := DigitsValue(digits);
      Some(if s[0] == '-' then -value else value)
  }

  function IndexValue(text: string): Option<int> {
    if text == "" then Some(0) else Atoi(text)
  }

  function StepInto(current: Json, part: string): Outcome {
    if '[' in part && ']' in part then
      var opening, closing := IndexOf('[', part), IndexOf(']', part);
      if closing < opening then Panics
      else
        var name := part[..opening];
        var index := IndexValue(part[opening + 1..closing]);
        if !current.Obj? || name !in current.fields || !current.fields[name].Arr? || index.None? then Missing
        else if 0 <= index.value < |current.fields[name].items|
        then Value(current.fields[name].items[index.value]) else Missing
    else if current.Obj? && part in current.fields then Value(current.fields[part]) else Missing
  }

  function Walk(current: Json, parts: seq<string>): Outcome {
    if parts == [] then Value(current)
    else match StepInto(current, parts[0])
      case Value(next) => Walk(next, parts[1..])
      case stop => stop
  }

  function Extract(data: Fields, path: string): Outcome {
    Walk(Obj(data), Split(path))
  }

  method ExtractValueFromPath(data: Fields, path: string) returns (result: Outcome)
    ensures result == Extract(data, path)
  {
    var parts := SplitPathWithArrays(path);
    var current := Obj(data);
    for i := 0 to |parts|
      invariant Walk(current, parts[i..]) == Extract(data, path)
    {
      assert parts[i..][1..] == parts[i + 1..];
      var next := StepInto(current, parts[i]);
      if !next.Value? {
        return next;
      }
      current := next.v;
    }
    result := Value(current);
  }

  // --- Paths as a list of accesses ----------------------------------------------------

  datatype Access = Field(name: string) | Item(name: string, index: nat)

  function DigitChar(d: nat): char
    requires d < 10
  {
    ('0' as int + d) as char
  }

  function Decimal(n: nat): string {
    if n < 10 then [DigitChar(n)] else Decimal(n / 10) + [DigitChar(n % 10)]
  }

  function Rendered(a: Access): string {
    match a
    case Field(name) => name
    case Item(name, index) => name + "[" + Decimal(index) + "]"
  }

  function RenderedAll(accesses: seq<Access>): seq<string> {
    if accesses == [] then [] else [Rendered(accesses[0])] + RenderedAll(accesses[1..])
  }

  predicate PlainName(name: string) {
    name != "" && '.' !in name && '[' !in name && ']' !in name
  }

  /** What a path is meant to denote: fields and array items, outermost first. */
  function Navigate(current: Json, accesses: seq<Access>): Outcome {
    if accesses == [] then Value(current)
    else if !current.Obj? || accesses[0].name !in current.fields then Missing
    else
      var field := current.fields[accesses[0].name];
      match accesses[0]
      case Field(_) => Navigate(field, accesses[1..])
      case Item(_, index) =>
        if field.Arr? && index < |field.items| then Navigate(field.items[index], accesses[1..]) else Missing
  }

  lemma {:induction false} DecimalDigits(n: nat)
    ensures Decimal(n) != "" && (forall c | c in Decimal(n) :: IsDigit(c))
    ensures DigitsValue(Decimal(n)) == n
  {
    if n < 10 {
      assert Decimal(n)[..0] == "";
    } else {
      DecimalDigits(n / 10);
      assert Decimal(n)[..|Decimal(n)| - 1] == Decimal(n / 10);
    }
  }

  lemma {:induction false} PlainTextIsSealed(s: string)
    requires '.' !in s && '[' !in s && ']' !in s
    ensures Sealed(s, false)
  {
    if s != "" {
      PlainTextIsSealed(s[1..]);
    }
  }

  lemma {:induction false} BracketedIsSealed(s: string, inBrackets: bool)
    requires '.' !in s && '[' !in s && ']' !in s
    ensures Sealed(s + "]", inBrackets)
  {
    if s == "" {
      assert s + "]" == "]" && "]"[1..] == "";
    } else {
      assert (s + "]")[1..] == s[1..] + "]";
      BracketedIsSealed(s[1..], inBrackets);
    }
  }

  lemma {:induction false} SealedConcat(s: string, t: string, inBrackets: bool)
    requires Sealed(s, inBrackets) && Sealed(t, false)
    ensures Sealed(s + t, inBrackets)
    decreases |s|
  {
    if s == "" {
      assert s + t == t;
    } else {
      assert (s + t)[1..] == s[1..] + t;
      SealedConcat(s[1..], t, InsideAfter(s[0], inBrackets));
    }
  }

  lemma RenderedIsSealed(a: Access)
    requires PlainName(a.name)
    ensures Rendered(a) != "" && Sealed(Rendered(a), false)
  {
    PlainTextIsSealed(a.name);
    if a.Item? {
      DecimalDigits(a.index);
      BracketedIsSealed(Decimal(a.index), true);
      var tail := "[" + (Decimal(a.index) + "]");
      assert tail[1..] == Decimal(a.index) + "]";
      SealedConcat(a.name, tail, false);
      assert a.name + tail == Rendered(a);
    }
  }

  lemma RenderedItemParts(name: string, index: nat)
    requires PlainName(name)
    ensures var part := Rendered(Item(name, index));
            '[' in part && ']' in part
            && IndexOf('[', part) == |name| && IndexOf(']', part) == |part| - 1 && |name| + 1 < |part|
            && part[..|name|] == name && part[|name| + 1..|part| - 1] == Decimal(index)
  {
    var part, digits := Rendered(Item(name, index)), Decimal(index);
    DecimalDigits(index);
    assert ']' !in digits;
    assert part[|name|] == '[' && part[|part| - 1] == ']';
    assert part[..|name|] == name;
    assert part[..|part| - 1] == name + "[" + digits;
    IndexOfIs('[', part, |name|);
    IndexOfIs(']', part, |part| - 1);
  }

  lemma AtoiDecimal(index: nat)
    ensures IndexValue(Decimal(index)) == Some(index as int)
  {
    DecimalDigits(index);
    assert IsDigit(Decimal(index)[0]);
  }

  /** A name with something in brackets behind it: nothing is the first item, a number is the item of
      that number, and a negative number or anything else leads nowhere. */
  lemma BracketedStep(current: Json, name: string, text: string)
    requires PlainName(name) && '[' !in text && ']' !in text
    requires current.Obj? && name in current.fields && current.fields[name].Arr?
    ensures var items, found := current.fields[name].items, StepInto(current, name + "[" + text + "]");
            && (text == "" && items != [] ==> found == Value(items[0]))
            && (text == "" && items == [] ==> found == Missing)
            && (text != "" && (exists c | c in text :: !IsDigit(c)) && text[0] != '-' && text[0] != '+' ==>
                  found == Missing)
            && (forall n: nat | text == Decimal(n) || text == "+" + Decimal(n) ::
                  found == if n < |items| then Value(items[n]) else Missing)
            && (forall n: nat | n > 0 && text == "-" + Decimal(n) :: found == Missing)
  {
    BracketParts(name, text);
    forall n: nat | text == Decimal(n) ensures IndexValue(text) == Some(n as int) {
      AtoiDecimal(n);
    }
    forall n: nat | text == "+" + Decimal(n) ensures IndexValue(text) == Some(n as int) {
      SignedDecimal(text, '+', n);
    }
    forall n: nat | text == "-" + Decimal(n) ensures IndexValue(text) == Some(0 - n as int) {
      SignedDecimal(text, '-', n);
    }
  }

  lemma SignedDecimal(text: string, sign: char, n: nat)
    requires text == [sign] + Decimal(n) && (sign == '+' || sign == '-')
    ensures IndexValue(text) == Some(if sign == '-' then 0 - n as int else n as int)
  {
    DecimalDigits(n);
    assert text[1..] == Decimal(n);
  }

  lemma BracketParts(name: string, text: string)
    requires PlainName(name) && '[' !in text && ']' !in text
    ensures var part := name + "[" + text + "]";
            && '[' in part && ']' in part && IndexOf('[', part) == |name| && IndexOf(']', part) == |part| - 1
            && part[..|name|] == name && part[|name| + 1..|part| - 1] == text
  {
    var part := name + "[" + text + "]";
    assert part[|name|] == '[' && part[|part| - 1] == ']';
    assert part[..|name|] == name;
    assert part[..|part| - 1] == name + "[" + text;
    IndexOfIs('[', part, |name|);
    IndexOfIs(']', part, |part| - 1);
  }

  /** A bracket that closes before it opens panics, whatever it is applied to. */
  lemma ClosedBeforeOpened(current: Json, before: string, behind: string)
    requires '[' !in before && ']' !in before && '[' in behind
    ensures StepInto(current, before + "]" + behind) == Panics
  {
    var part := before + "]" + behind;
    assert part[|before|] == ']' && part[..|before|] == before;
    IndexOfIs(']', part, |before|);
    var k :| 0 <= k < |behind| && behind[k] == '[';
    assert part[|before| + 1 + k] == '[';
    assert forall i | 0 <= i < |before| :: part[i] == before[i] && before[i] != '[';
  }

  /** Without brackets a part is a field, and only objects have fields. */
  lemma FieldStep(current: Json, name: string)
    requires '[' !in name || ']' !in name
    ensures StepInto(current, name)
            == if current.Obj? && name in current.fields then Value(current.fields[name]) else Missing
  {
  }

  lemma StepIntoRendered(current: Json, a: Access)
    requires PlainName(a.name)
    ensures StepInto(current, Rendered(a)) == Navigate(current, [a])
  {
    if a.Item? {
      RenderedItemParts(a.name, a.index);
      AtoiDecimal(a.index);
    }
  }

  lemma IndexOfIs(c: char, s: string, i: nat)
    requires i < |s| && s[i] == c && c !in s[..i]
    ensures c in s && IndexOf(c, s) == i
  {
    var j := IndexOf(c, s);
    assert s[j] == c && c !in s[..j];
  }

  lemma {:induction false} WalkRendered(current: Json, accesses: seq<Access>)
    requires forall a | a in accesses :: PlainName(a.name)
    ensures Walk(current, RenderedAll(accesses)) == Navigate(current, accesses)
    decreases |accesses|
  {
    if accesses != [] {
      StepIntoRendered(current, accesses[0]);
      var next := Navigate(current, [accesses[0]]);
      assert RenderedAll(accesses)[1..] == RenderedAll(accesses[1..]);
      if next.Value? {
        WalkRendered(next.v, accesses[1..]);
      }
    }
  }

  lemma {:induction false} RenderedAllIsSealed(accesses: seq<Access>)
    requires forall a | a in accesses :: PlainName(a.name)
    ensures forall p | p in RenderedAll(accesses) :: p != "" && Sealed(p, false)
  {
    if accesses != [] {
      RenderedIsSealed(accesses[0]);
      RenderedAllIsSealed(accesses[1..]);
    }
  }

  /** Writing accesses down as a path and extracting it is direct navigation. */
  lemma ExtractionFollowsThePath(data: Fields, accesses: seq<Access>)
    requires forall a | a in accesses :: PlainName(a.name)
    ensures Extract(data, Join(RenderedAll(accesses))) == Navigate(Obj(data), accesses)
  {
    RenderedAllIsSealed(accesses);
    SplitInvertsJoin(RenderedAll(accesses));
    WalkRendered(Obj(data), accesses);
  }

  // --- Agreement with the evaluator of module Jq --------------------------------------

  function NonEmpty(parts: seq<string>): seq<string> {
    if parts == [] then []
    else Flush(parts[0]) + NonEmpty(parts[1..])
  }

  predicate BracketFree(path: string) {
    '[' !in path && ']' !in path
  }

  /** Without brackets this splitter keeps the non-empty parts between dots. */
  lemma {:induction false} SplitIsNonEmptyDots(path: string, current: string)
    requires BracketFree(path)
    ensures var dots := Jq.SplitDots(path);
            SplitFrom(path, current, false) == NonEmpty([current + dots[0]] + dots[1..])
    decreases |path|
  {
    var dots := Jq.SplitDots(path);
    if path == "" {
      assert current + "" == current;
      assert [current] + dots[1..] == [current];
    } else {
      var rest := Jq.SplitDots(path[1..]);
      if path[0] == '.' {
        SplitIsNonEmptyDots(path[1..], "");
        assert "" + rest[0] == rest[0];
        assert [rest[0]] + rest[1..] == rest;
        assert current + "" == current;
        assert dots[1..] == rest;
        assert ([current + dots[0]] + dots[1..])[1..] == rest;
      } else {
        SplitIsNonEmptyDots(path[1..], current + [path[0]]);
        assert current + [path[0]] + rest[0] == current + dots[0];
        assert dots[1..] == rest[1..];
      }
    }
  }

  lemma {:induction false} BracketFreeDots(path: string)
    requires BracketFree(path)
    ensures forall p | p in Jq.SplitDots(path) :: BracketFree(p)
  {
    if path != "" {
      BracketFreeDots(path[1..]);
      var rest := Jq.SplitDots(path[1..]);
      assert rest[0] in rest;
      forall p | p in Jq.SplitDots(path) ensures BracketFree(p) {
        assert p == "" || p == [path[0]] + rest[0] || p in rest;
      }
    }
  }

  predicate Agree(data: Fields, path: string) {
    match Extract(data, path)
    case Value(v) => Jq.FromPath(data, path) == Some(v)
    case Missing => Jq.FromPath(data, path).None?
    case Panics => false
  }

  lemma {:induction false} WalkIsDescend(data: Fields, parts: seq<string>)
    requires parts != [] && "" !in parts && forall p | p in parts :: BracketFree(p)
    ensures Walk(Obj(data), parts) ==
            match Jq.Descend(data, parts) { case Some(v) => Value(v) case None => Missing }
    decreases |parts|
  {
    assert BracketFree(parts[0]);
    if parts[0] in data && |parts| > 1 {
      if data[parts[0]].Obj? {
        WalkIsDescend(data[parts[0]].fields, parts[1..]);
      } else {
        assert BracketFree(parts[1]);
        assert parts[1..][0] == parts[1];
      }
    }
  }

  /** Objects nested along the given names. */
  function Nested(names: seq<string>): Fields {
    if names == [] then map[] else map[names[0] := Obj(Nested(names[1..]))]
  }

  lemma {:induction false} WalkNested(names: seq<string>)
    requires forall p | p in names :: BracketFree(p)
    ensures Walk(Obj(Nested(names)), names).Value?
  {
    if names != [] {
      assert BracketFree(names[0]);
      WalkNested(names[1..]);
    }
  }

  lemma {:induction false} DescendStopsAtEmptyPart(dots: seq<string>)
    requires "" in dots
    ensures dots != [] && Jq.Descend(Nested(NonEmpty(dots)), dots).None?
    decreases |dots|
  {
    NonEmptyHasNoEmpty(dots);
    if dots[0] != "" {
      assert "" in dots[1..];
      assert NonEmpty(dots)[1..] == NonEmpty(dots[1..]);
      DescendStopsAtEmptyPart(dots[1..]);
    }
  }

  lemma {:induction false} NonEmptyHasNoEmpty(parts: seq<string>)
    ensures "" !in NonEmpty(parts)
    ensures forall p | p in NonEmpty(parts) :: p in parts
    ensures "" !in parts ==> NonEmpty(parts) == parts
  {
    if parts != [] {
      NonEmptyHasNoEmpty(parts[1..]);
    }
  }

  /** On bracket-free paths the two evaluators agree about every document exactly when no
      part between dots is empty. */
  lemma EvaluatorsAgreeIffNoEmptyPart(path: string)
    requires BracketFree(path)
    ensures (forall data :: Agree(data, path)) <==> "" !in Jq.SplitDots(path)
  {
    var dots := Jq.SplitDots(path);
    SplitIsNonEmptyDots(path, "");
    assert "" + dots[0] == dots[0] && [dots[0]] + dots[1..] == dots;
    BracketFreeDots(path);
    NonEmptyHasNoEmpty(dots);
    if "" !in dots {
      forall data ensures Agree(data, path) {
        WalkIsDescend(data, dots);
      }
    } else {
      WalkNested(NonEmpty(dots));
      DescendStopsAtEmptyPart(dots);
      assert !Agree(Nested(NonEmpty(dots)), path);
    }
  }
}
