/** Which value an expression yields: where the written forms of a path lead, and what they find in
    the state that a set task runs on. */
module Expressions {
  import opened Values
  import opened Replay
  import opened Worker
  import C = CallPaths

  // --- Paths --------------------------------------------------------------------------

  /** A name that needs no quoting in a path. */
  predicate Simple(name: string) {
    C.PlainName(name) && '(' !in name && forall c | c in name :: !Jq.IsSpace(c)
  }

  function FieldsOf(names: seq<string>): seq<C.Access> {
    if names == [] then [] else [C.Field(names[0])] + FieldsOf(names[1..])
  }

  /** What stands at the end of the names, outermost first. */
  function Found(data: Fields, names: seq<string>): Option<Json> {
    match C.Navigate(Obj(data), FieldsOf(names))
    case Value(v) => Some(v)
    case _ => None
  }

  lemma {:induction false} DotSplits(name: string, rest: string)
    requires '.' !in name
    ensures Jq.SplitDots(name + "." + rest) == [name] + Jq.SplitDots(rest)
  {
    if name == "" {
      assert "" + "." + rest == "." + rest && ("." + rest)[1..] == rest;
    } else {
      DotSplits(name[1..], rest);
      assert (name + "." + rest)[1..] == name[1..] + "." + rest;
      assert [name[0]] + name[1..] == name;
    }
  }

  /** Splitting at dots undoes joining with dots. */
  lemma {:induction false} DotsSplit(names: seq<string>)
    requires names != [] && forall name | name in names :: '.' !in name
    ensures Jq.SplitDots(C.Join(names)) == names
  {
    assert names == [names[0]] + names[1..];
    if |names| == 1 {
      Jq.OnePart(names[0]);
    } else {
      DotSplits(names[0], C.Join(names[1..]));
      DotsSplit(names[1..]);
    }
  }

  lemma FoundUnfolds(data: Fields, name: string, rest: seq<string>)
    ensures Found(data, [name] + rest)
            == if name !in data then None
               else if rest == [] then Some(data[name])
               else if data[name].Obj? then Found(data[name].fields, rest)
               else None
  {
    var names := [name] + rest;
    assert names[0] == name && names[1..] == rest;
    assert FieldsOf(names) == [C.Field(name)] + FieldsOf(rest);
    assert FieldsOf(names)[1..] == FieldsOf(rest);
    if name in data {
      var accesses := FieldsOf(names);
      assert accesses[0] == C.Field(name) && accesses[1..] == FieldsOf(rest);
      assert C.Navigate(Obj(data), accesses) == C.Navigate(data[name], FieldsOf(rest));
      if rest != [] {
        assert FieldsOf(rest) != [];
      }
    }
  }

  lemma JoinHead(name: string, rest: seq<string>)
    requires rest != []
    ensures C.Join([name] + rest) == name + "." + C.Join(rest)
  {
    assert ([name] + rest)[1..] == rest;
  }

  lemma {:induction false} DescentNavigates(data: Fields, names: seq<string>)
    requires names != [] && forall name | name in names :: C.PlainName(name)
    ensures Jq.Descend(data, names) == Found(data, names)
    decreases |names|
  {
    assert C.PlainName(names[0]) && names == [names[0]] + names[1..];
    FoundUnfolds(data, names[0], names[1..]);
    if |names| > 1 && names[0] in data && data[names[0]].Obj? {
      DescentNavigates(data[names[0]].fields, names[1..]);
    }
  }

  lemma PathIsFound(data: Fields, names: seq<string>)
    requires names != [] && forall name | name in names :: C.PlainName(name)
    ensures Jq.FromPath(data, C.Join(names)) == Found(data, names)
  {
    DotsSplit(names);
    DescentNavigates(data, names);
  }

  /** A part with both brackets leads nowhere: this evaluator has no array access. */
  lemma BracketsAreRefused(data: Fields, part: string, rest: seq<string>)
    requires '[' in part && ']' in part
    ensures Jq.Descend(data, [part] + rest) == None
  {
  }

  // --- Written forms ------------------------------------------------------------------

  lemma {:induction false} TrimsLeft(spaces: string, text: string)
    requires (forall c | c in spaces :: Jq.IsSpace(c)) && text != "" && !Jq.IsSpace(text[0])
    ensures Jq.TrimLeft(spaces + text) == text
  {
    if spaces == "" {
      assert spaces + text == text;
    } else {
      assert (spaces + text)[1..] == spaces[1..] + text;
      TrimsLeft(spaces[1..], text);
    }
  }

  lemma {:induction false} TrimsRight(text: string, spaces: string)
    requires (forall c | c in spaces :: Jq.IsSpace(c)) && text != "" && !Jq.IsSpace(text[|text| - 1])
    ensures Jq.TrimRight(text + spaces) == text
  {
    if spaces == "" {
      assert text + spaces == text;
    } else {
      assert (text + spaces)[..|text + spaces| - 1] == text + spaces[..|spaces| - 1];
      TrimsRight(text, spaces[..|spaces| - 1]);
    }
  }

  /** The expression with some white space on both sides of what is between its braces. */
  function Written(before: string, path: string, behind: string): string {
    "${" + (before + path + behind) + "}"
  }

  predicate Spaces(text: string) {
    forall c | c in text :: Jq.IsSpace(c)
  }

  lemma PathInWritten(before: string, path: string, behind: string)
    requires Spaces(before) && Spaces(behind) && path != ""
    requires !Jq.IsSpace(path[0]) && !Jq.IsSpace(path[|path| - 1])
    ensures Jq.IsExpression(Written(before, path, behind)) && Jq.PathIn(Written(before, path, behind)) == path
  {
    var text, inner := Written(before, path, behind), before + path + behind;
    assert text[..2] == "${" && text[|text| - 1..] == "}" && text[2..|text| - 1] == inner;
    assert inner == before + (path + behind);
    assert (path + behind)[0] == path[0];
    TrimsLeft(before, path + behind);
    TrimsRight(path, behind);
  }

  lemma {:induction false} JoinedEnds(names: seq<string>)
    requires names != [] && forall name | name in names :: Simple(name)
    ensures var path := C.Join(names); path != "" && !Jq.IsSpace(path[0]) && !Jq.IsSpace(path[|path| - 1])
  {
    var first := names[0];
    assert Simple(first) && first[0] in first && first[|first| - 1] in first;
    if |names| > 1 {
      assert forall name | name in names[1..] :: name in names;
      JoinedEnds(names[1..]);
      var rest, path := C.Join(names[1..]), C.Join(names);
      assert path[0] == first[0] && path[|path| - 1] == rest[|rest| - 1];
    }
  }

  /** The prefixes `.` and `$.` lead to the root. */
  lemma RootExpression(names: seq<string>, data: Fields, now: string, before: string, behind: string)
    requires names != [] && (forall name | name in names :: Simple(name)) && Spaces(before) && Spaces(behind)
    ensures Jq.Expression(Written(before, "." + C.Join(names), behind), data, now) == Found(data, names)
    ensures Jq.Expression(Written(before, "$." + C.Join(names), behind), data, now) == Found(data, names)
  {
    var path := C.Join(names);
    JoinedEnds(names);
    PathInWritten(before, "." + path, behind);
    PathInWritten(before, "$." + path, behind);
    PathIsFound(data, names);
    assert ("." + path)[0] == '.' && ("." + path)[1..] == path;
    assert ("$." + path)[0] == '$' && ("$." + path)[1] == '.' && ("$." + path)[2..] == path && "$." <= "$." + path;
    assert "$workflow."[0] == '$' && "$workflow."[1] == 'w';
    assert "$workflow.input."[0] == '$' && "$workflow.input."[1] == 'w';
  }

  /** The prefix `$workflow.` leads to the field `workflow`. */
  lemma WorkflowExpression(names: seq<string>, data: Fields, now: string, before: string, behind: string)
    requires names != [] && (forall name | name in names :: Simple(name)) && Spaces(before) && Spaces(behind)
    ensures Jq.Expression(Written(before, "$workflow." + C.Join(names), behind), data, now)
            == Found(data, ["workflow"] + names)
  {
    var path := C.Join(names);
    JoinedEnds(names);
    PathInWritten(before, "$workflow." + path, behind);
    assert C.PlainName("workflow");
    PathIsFound(data, ["workflow"] + names);
    JoinHead("workflow", names);
    WorkflowPath(path, data, now);
  }

  lemma WorkflowPath(path: string, data: Fields, now: string)
    ensures Jq.Builtin("$workflow." + path, data, now) == Jq.FromPath(data, "workflow" + "." + path)
  {
    var whole := "$workflow." + path;
    assert whole[0] == '$' && whole[10..] == path && "$workflow." <= whole;
    if "$workflow.input." <= whole {
      assert whole == "$workflow.input." + whole[16..];
      assert whole[1..] == "workflow.input." + whole[16..];
      assert whole[1..] == "workflow" + "." + path;
    } else {
      assert "workflow." + path == "workflow" + "." + path;
    }
  }

  /** A bare name is a field of the root, and anything else is no expression. */
  lemma BareName(name: string, data: Fields, now: string, before: string, behind: string)
    requires Simple(name) && Spaces(before) && Spaces(behind)
    ensures Jq.Expression(Written(before, name, behind), data, now) == Lookup(data, name)
  {
    assert name[0] in name && name[|name| - 1] in name;
    PathInWritten(before, name, behind);
    assert "now()"[3] == '(' && "$."[1] == '.' && "."[0] == '.';
    assert "$workflow."[9] == '.' && "$workflow.input."[9] == '.';
  }

  lemma OtherTexts(text: string, data: Fields, now: string)
    ensures Jq.Expression("", data, now) == None
    ensures text != "" && !("${" <= text && text[|text| - 1] == '}') ==>
              Jq.Expression(text, data, now) == Some(Str(text))
    ensures Jq.Expression("${now()}", data, now) == Some(Str(now))
  {
    PathInWritten("", "now()", "");
    assert "" + "now()" + "" == "now()";
    assert Written("", "now()", "") == "${now()}";
  }

  // --- What the expressions of a set task see -----------------------------------------

  lemma RootField(data: Fields, name: string)
    ensures Found(data, [name]) == Lookup(data, name)
  {
    assert [name] + [] == [name];
    FoundUnfolds(data, name, []);
  }

  lemma NestedField(data: Fields, a: string, b: string, c: string)
    ensures Found(data, [a] + [b] + [c])
            == if a in data && data[a].Obj? && b in data[a].fields && data[a].fields[b].Obj?
               then Lookup(data[a].fields[b].fields, c) else None
  {
    assert [a] + [b] + [c] == [a] + ([b] + [c]);
    FoundUnfolds(data, a, [b] + [c]);
    if a in data && data[a].Obj? {
      FoundUnfolds(data[a].fields, b, [c]);
      if b in data[a].fields && data[a].fields[b].Obj? {
        RootField(data[a].fields[b].fields, c);
      }
    }
  }

  /** `${.x}`, `${$.x}` and `${x}` yield the variable, or else the input field of that name. */
  lemma NameIsSeen(s: State, x: string, now: string)
    requires Simple(x) && x != "now" && x != "workflow"
    ensures var seen := if x in Variables(s) then Some(Variables(s)[x]) else Lookup(s.input.GetOr(map[]), x);
            && Jq.Expression(Written("", "." + x, ""), ExpressionContext(s), now) == seen
            && Jq.Expression(Written("", "$." + x, ""), ExpressionContext(s), now) == seen
            && Jq.Expression(Written("", x, ""), ExpressionContext(s), now) == seen
  {
    RootExpression([x], ExpressionContext(s), now, "", "");
    RootField(ExpressionContext(s), x);
    BareName(x, ExpressionContext(s), now, "", "");
  }

  /** `${$workflow.variables.x}` yields the variable and `${$workflow.input.x}` the input field. */
  lemma SectionIsSeen(s: State, x: string, now: string)
    requires Simple(x)
    ensures Jq.Expression(Written("", "$workflow." + ("variables." + x), ""), ExpressionContext(s), now)
            == Lookup(Variables(s), x)
    ensures Jq.Expression(Written("", "$workflow." + ("input." + x), ""), ExpressionContext(s), now)
            == Lookup(s.input.GetOr(map[]), x)
  {
    assert Simple("variables") && Simple("input");
    WorkflowFields(s);
    WorkflowSection("variables", x, ExpressionContext(s), now);
    WorkflowSection("input", x, ExpressionContext(s), now);
    assert "variables." + x == "variables" + "." + x && "input." + x == "input" + "." + x;
  }

  lemma WorkflowFields(s: State)
    ensures "workflow" in ExpressionContext(s) && ExpressionContext(s)["workflow"].Obj?
    ensures var workflow := ExpressionContext(s)["workflow"].fields;
            && Lookup(workflow, "variables") == (if s.variables.Some? then Some(Obj(s.variables.value)) else None)
            && Lookup(workflow, "input") == (if s.input.Some? then Some(Obj(s.input.value)) else None)
  {
  }

  lemma WorkflowSection(section: string, x: string, data: Fields, now: string)
    requires Simple(section) && Simple(x)
    ensures Jq.Expression(Written("", "$workflow." + (section + "." + x), ""), data, now)
            == if "workflow" in data && data["workflow"].Obj? && section in data["workflow"].fields
                  && data["workflow"].fields[section].Obj?
               then Lookup(data["workflow"].fields[section].fields, x) else None
  {
    JoinHead(section, [x]);
    WorkflowExpression([section] + [x], data, now, "", "");
    assert ["workflow"] + ([section] + [x]) == ["workflow"] + [section] + [x];
    NestedField(data, "workflow", section, x);
  }
}
