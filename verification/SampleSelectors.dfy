/** Parsing a sample request: one selector for every member of the starting component, or the first fault. */
module SampleSelectors {
  import opened Prelude
  import opened Sampling

  /** A token split at its last `=`. */
  datatype Assignment = Assignment(member: string, token: string)

  predicate HasEquals(token: string) { '=' in token }

  predicate IsPercentage(token: string) { token != "" && token[|token| - 1] == '%' }

  /** The text that is parsed as a number. */
  function Digits(percentage: bool, token: string): string {
    if percentage && token != "" then token[..|token| - 1] else token
  }

  /** `rsplit('=', 1)`. */
  function SplitLast(token: string): (a: Assignment)
    requires HasEquals(token)
    ensures token == a.member + "=" + a.token && !HasEquals(a.token)
  {
    var last := |token| - 1;
    if token[last] == '=' then
      assert token == token[..last] + "=" + "";
      Assignment(token[..last], "")
    else
      assert token == token[..last] + [token[last]];
      var a := SplitLast(token[..last]);
      Assignment(a.member, a.token + [token[last]])
  }

  function Assignments(startNode: string, tokens: seq<string>): seq<Assignment>
    requires tokens != [] && (HasEquals(tokens[0]) ==> forall k | 0 <= k < |tokens| :: HasEquals(tokens[k]))
  {
    if HasEquals(tokens[0]) then seq(|tokens|, k requires 0 <= k < |tokens| => SplitLast(tokens[k]))
    else [Assignment(startNode, tokens[0])]
  }

  datatype Reason =
    | StartOutside
    | NoSingleSelector
    | UnnamedAssignment
    | MemberOutside(member: string)
    | MemberTwice(member: string)
    | MixedKinds
    | NotANumber
    | OutOfRange

  datatype Parsed = Selectors(selectors: map<string, Selector>) | Invalid(reason: Reason)

  /** What is wrong with the request as a whole: it is one shorthand selector, or named assignments throughout. */
  function ShapeFault(startNode: string, members: seq<string>, tokens: seq<string>): (fault: Option<Reason>)
    ensures fault.None? ==>
      tokens != [] && (HasEquals(tokens[0]) ==> forall k | 0 <= k < |tokens| :: HasEquals(tokens[k]))
  {
    if startNode !in members then Some(StartOutside)
    else if tokens == [] || (!HasEquals(tokens[0]) && |tokens| != 1) then Some(NoSingleSelector)
    else if HasEquals(tokens[0]) && exists k | 0 <= k < |tokens| :: !HasEquals(tokens[k]) then Some(UnnamedAssignment)
    else None
  }

  /** What is wrong with an assignment, after those before it. */
  function Fault(members: seq<string>, parse: string -> Option<int>, percentage: bool, assignments: seq<Assignment>,
      k: nat)
    : Option<Reason>
    requires k < |assignments|
  {
    var a := assignments[k];
    if a.member !in members then Some(MemberOutside(a.member))
    else if exists j | 0 <= j < k :: assignments[j].member == a.member then Some(MemberTwice(a.member))
    else if IsPercentage(a.token) != percentage then Some(MixedKinds)
    else
      var value := parse(Digits(percentage, a.token));
      if value.None? then Some(NotANumber)
      else if value.value < 0 || (percentage && value.value > 100) then Some(OutOfRange)
      else None
  }

  /** After the first `k` assignments: every member has a selector of the one kind, the assigned value or zero. */
  ghost predicate Taken(members: seq<string>, parse: string -> Option<int>, percentage: bool,
      assignments: seq<Assignment>, k: nat, selectors: map<string, Selector>)
    requires k <= |assignments|
  {
    && (forall m :: m in selectors <==> m in members)
    && (forall m | m in selectors :: selectors[m].kind == if percentage then Percentage else Count)
    && (forall j | 0 <= j < k ::
          && Fault(members, parse, percentage, assignments, j).None?
          && assignments[j].member in selectors
          && parse(Digits(percentage, assignments[j].token)) == Some(selectors[assignments[j].member].value))
    && (forall m | m in selectors && Unassigned(assignments, k, m) :: selectors[m].value == 0)
  }

  predicate Unassigned(assignments: seq<Assignment>, k: nat, m: string)
    requires k <= |assignments|
  {
    forall j | 0 <= j < k :: assignments[j].member != m
  }

  lemma TakenStep(members: seq<string>, parse: string -> Option<int>, percentage: bool, assignments: seq<Assignment>,
                  k: nat, selectors: map<string, Selector>, value: int)
    requires k < |assignments| && Taken(members, parse, percentage, assignments, k, selectors)
    requires Fault(members, parse, percentage, assignments, k).None?
    requires parse(Digits(percentage, assignments[k].token)) == Some(value)
    ensures Taken(members, parse, percentage, assignments, k + 1,
                  selectors[assignments[k].member := Selector(if percentage then Percentage else Count, value)])
  {
    hide Digits, IsPercentage;
    var a := assignments[k];
    forall m | m in selectors && Unassigned(assignments, k + 1, m) ensures m != a.member && selectors[m].value == 0 {
      assert Unassigned(assignments, k, m);
    }
  }

  /** The assignments before `k` are all good; that one is not. */
  predicate FirstFault(members: seq<string>, parse: string -> Option<int>, percentage: bool,
      assignments: seq<Assignment>, k: nat, reason: Reason)
  {
    && k < |assignments| && Fault(members, parse, percentage, assignments, k) == Some(reason)
    && forall j | 0 <= j < k :: Fault(members, parse, percentage, assignments, j).None?
  }

  /** What a request amounts to: its first fault, or a selector for every member. */
  ghost predicate IsParsed(startNode: string, members: seq<string>, tokens: seq<string>, parse: string -> Option<int>,
      r: Parsed)
  {
    var shape := ShapeFault(startNode, members, tokens);
    if shape.Some? then r == Invalid(shape.value)
    else
      var assignments := Assignments(startNode, tokens);
      var percentage := IsPercentage(assignments[0].token);
      match r
      case Selectors(selectors) => Taken(members, parse, percentage, assignments, |assignments|, selectors)
      case Invalid(reason) => exists k: nat :: FirstFault(members, parse, percentage, assignments, k, reason)
  }

  /** A request has one outcome. */
  lemma ParsedUnique(startNode: string, members: seq<string>, tokens: seq<string>, parse: string -> Option<int>,
      r: Parsed, q: Parsed)
    requires IsParsed(startNode, members, tokens, parse, r) && IsParsed(startNode, members, tokens, parse, q)
    ensures r.Invalid? <==> q.Invalid?
    ensures r.Invalid? && q.Invalid? ==> r == q
  {
    if ShapeFault(startNode, members, tokens).None? {
      var assignments := Assignments(startNode, tokens);
      var percentage := IsPercentage(assignments[0].token);
      if r.Invalid? && q.Invalid? {
        var j: nat :| FirstFault(members, parse, percentage, assignments, j, r.reason);
        var k: nat :| FirstFault(members, parse, percentage, assignments, k, q.reason);
        assert j == k;
      }
    }
  }

  /** `parse_sample_selectors`; `parse` stands for `int` on text. */
  method ParseSelectors(startNode: string, members: seq<string>, tokens: seq<string>, parse: string -> Option<int>)
    returns (r: Parsed)
    ensures IsParsed(startNode, members, tokens, parse, r)
  {
    if startNode !in members { return Invalid(StartOutside); }
    if tokens == [] || (!HasEquals(tokens[0]) && |tokens| != 1) { return Invalid(NoSingleSelector); }
    if HasEquals(tokens[0]) && exists k | 0 <= k < |tokens| :: !HasEquals(tokens[k]) {
      return Invalid(UnnamedAssignment);
    }
    hide Taken, Fault, IsPercentage, Digits;
    var assignments := Assignments(startNode, tokens);
    r := Take(members, parse, IsPercentage(assignments[0].token), assignments);
  }

  method Take(members: seq<string>, parse: string -> Option<int>, percentage: bool, assignments: seq<Assignment>)
    returns (r: Parsed)
    ensures r.Selectors? ==> Taken(members, parse, percentage, assignments, |assignments|, r.selectors)
    ensures r.Invalid? ==> exists k: nat :: FirstFault(members, parse, percentage, assignments, k, r.reason)
  {
    hide Taken;
    var kind := if percentage then Percentage else Count;
    var selectors := map m | m in members :: Selector(kind, 0);
    NoneTaken(members, parse, percentage, assignments, selectors);
    var seen: set<string> := {};
    for k := 0 to |assignments|
      invariant Taken(members, parse, percentage, assignments, k, selectors)
      invariant forall m :: m in seen <==> exists j :: 0 <= j < k && assignments[j].member == m
      invariant forall j | 0 <= j < k :: Fault(members, parse, percentage, assignments, j).None?
    {
      var a := assignments[k];
      TakenMembers(members, parse, percentage, assignments, k, selectors);
      var fault := Check(members, parse, percentage, assignments, k, selectors, seen);
      if fault.Some? {
        assert FirstFault(members, parse, percentage, assignments, k, fault.value);
        return Invalid(fault.value);
      }
      seen := seen + {a.member};
      var value := parse(Digits(percentage, a.token));
      TakenStep(members, parse, percentage, assignments, k, selectors, value.value);
      selectors := selectors[a.member := Selector(kind, value.value)];
    }
    r := Selectors(selectors);
  }

  /** The checks of one assignment, in their order. */
  method Check(members: seq<string>, parse: string -> Option<int>, percentage: bool, assignments: seq<Assignment>,
      k: nat, selectors: map<string, Selector>, seen: set<string>)
    returns (fault: Option<Reason>)
    requires k < |assignments| && forall m :: m in selectors <==> m in members
    requires forall m :: m in seen <==> exists j :: 0 <= j < k && assignments[j].member == m
    ensures fault == Fault(members, parse, percentage, assignments, k)
  {
    var a := assignments[k];
    if a.member !in selectors { return Some(MemberOutside(a.member)); }
    if a.member in seen { return Some(MemberTwice(a.member)); }
    if IsPercentage(a.token) != percentage { return Some(MixedKinds); }
    var value := parse(Digits(percentage, a.token));
    if value.None? { return Some(NotANumber); }
    if value.value < 0 || (percentage && value.value > 100) { return Some(OutOfRange); }
    return None;
  }

  lemma NoneTaken(members: seq<string>, parse: string -> Option<int>, percentage: bool, assignments: seq<Assignment>,
                  selectors: map<string, Selector>)
    requires forall m :: m in selectors <==> m in members
    requires forall m | m in selectors :: selectors[m] == Selector(if percentage then Percentage else Count, 0)
    ensures Taken(members, parse, percentage, assignments, 0, selectors)
  {
  }

  lemma TakenMembers(members: seq<string>, parse: string -> Option<int>, percentage: bool, assignments: seq<Assignment>,
                     k: nat, selectors: map<string, Selector>)
    requires k <= |assignments| && Taken(members, parse, percentage, assignments, k, selectors)
    ensures forall m :: m in selectors <==> m in members
  {
  }

  // ---- requests as text ----------------------------------------------------------------------

  /** A text without `=`; for a count it does not end in a percent sign either. */
  predicate IsValue(text: string, percentage: bool) {
    '=' !in text && (!percentage ==> text == "" || text[|text| - 1] != '%')
  }

  /** How such a text stands in a request. */
  function Written(text: string, percentage: bool): string { if percentage then text + "%" else text }

  /** The tokens are `names[k]=texts[k]`, with a percent sign each or none. */
  ghost predicate Spells(tokens: seq<string>, percentage: bool, names: seq<string>, texts: seq<string>) {
    && |tokens| == |names| == |texts|
    && forall k | 0 <= k < |tokens| ::
         IsValue(texts[k], percentage) && tokens[k] == names[k] + "=" + Written(texts[k], percentage)
  }

  predicate InRange(value: int, percentage: bool) {
    0 <= value && (percentage ==> value <= 100)
  }

  /** The text is a number in range. */
  predicate IsGood(parse: string -> Option<int>, percentage: bool, text: string) {
    parse(text).Some? && InRange(parse(text).value, percentage)
  }

  /** What every member gets: what its text says, or zero. */
  ghost predicate Gives(members: seq<string>, parse: string -> Option<int>, percentage: bool, names: seq<string>,
      texts: seq<string>, selectors: map<string, Selector>)
    requires |names| == |texts|
  {
    && (forall m :: m in selectors <==> m in members)
    && (forall m | m in selectors :: selectors[m].kind == if percentage then Percentage else Count)
    && (forall k | 0 <= k < |names| :: names[k] in selectors && parse(texts[k]) == Some(selectors[names[k]].value))
    && (forall m | m in selectors && m !in names :: selectors[m].value == 0)
  }

  lemma SplitAt(name: string, value: string)
    requires '=' !in value
    ensures HasEquals(name + "=" + value) && SplitLast(name + "=" + value) == Assignment(name, value)
  {
    var token := name + "=" + value;
    assert token[|name|] == '=';
    var a := SplitLast(token);
    hide SplitLast;
    OneLastEquals(name, value, a.member, a.token);
  }

  lemma OneLastEquals(name: string, value: string, member: string, rest: string)
    requires name + "=" + value == member + "=" + rest && '=' !in value && '=' !in rest
    ensures name == member && value == rest
  {
    NoneAfter(name, value);
    NoneAfter(member, rest);
    assert (name + "=" + value)[|member|] == '=' && (name + "=" + value)[|name|] == '=';
    assert name == (name + "=" + value)[..|name|] && member == (member + "=" + rest)[..|member|];
    assert value == (name + "=" + value)[|name| + 1..] && rest == (member + "=" + rest)[|member| + 1..];
  }

  lemma NoneAfter(name: string, value: string)
    requires '=' !in value
    ensures forall j | |name| < j < |name + "=" + value| :: (name + "=" + value)[j] != '='
  {
    forall j | |name| < j < |name + "=" + value| ensures (name + "=" + value)[j] != '=' {
      assert (name + "=" + value)[j] == value[j - |name| - 1];
    }
  }

  lemma WrittenIs(text: string, percentage: bool)
    requires IsValue(text, percentage)
    ensures '=' !in Written(text, percentage) && IsPercentage(Written(text, percentage)) == percentage
    ensures Digits(percentage, Written(text, percentage)) == text
  {
    if percentage {
      assert (text + "%")[..|text|] == text;
      forall c | c in text + "%" ensures c != '=' { assert c in text || c in "%"; }
    }
  }

  /** The assignments a request consists of. */
  ghost predicate Reads(assignments: seq<Assignment>, percentage: bool, names: seq<string>, texts: seq<string>) {
    && |assignments| == |names| == |texts|
    && forall k | 0 <= k < |names| ::
         && assignments[k].member == names[k] && IsPercentage(assignments[k].token) == percentage
         && Digits(percentage, assignments[k].token) == texts[k]
  }

  lemma SpelledReads(startNode: string, tokens: seq<string>, percentage: bool, names: seq<string>, texts: seq<string>)
    requires tokens != [] && Spells(tokens, percentage, names, texts)
    ensures forall k | 0 <= k < |tokens| :: HasEquals(tokens[k])
    ensures Reads(Assignments(startNode, tokens), percentage, names, texts)
  {
    forall k | 0 <= k < |tokens|
      ensures HasEquals(tokens[k]) && SplitLast(tokens[k]) == Assignment(names[k], Written(texts[k], percentage))
      ensures IsPercentage(Written(texts[k], percentage)) == percentage
      ensures Digits(percentage, Written(texts[k], percentage)) == texts[k]
    {
      WrittenIs(texts[k], percentage);
      SplitAt(names[k], Written(texts[k], percentage));
    }
  }

  lemma LoneReads(startNode: string, percentage: bool, text: string)
    requires IsValue(text, percentage)
    ensures !HasEquals(Written(text, percentage))
    ensures Reads(Assignments(startNode, [Written(text, percentage)]), percentage, [startNode], [text])
  {
    WrittenIs(text, percentage);
  }

  /** What is wrong with one assignment of such a request. */
  lemma FaultAt(members: seq<string>, parse: string -> Option<int>, percentage: bool, assignments: seq<Assignment>,
      names: seq<string>, texts: seq<string>, k: nat)
    requires Reads(assignments, percentage, names, texts) && k < |names|
    ensures Fault(members, parse, percentage, assignments, k) ==
      if names[k] !in members then Some(MemberOutside(names[k]))
      else if names[k] in names[..k] then Some(MemberTwice(names[k]))
      else if parse(texts[k]).None? then Some(NotANumber)
      else if !InRange(parse(texts[k]).value, percentage) then Some(OutOfRange)
      else None
  {
    hide Digits, IsPercentage;
    if names[k] in names[..k] {
      var j :| 0 <= j < k && names[..k][j] == names[k];
      assert assignments[j].member == names[k];
    }
    if exists j | 0 <= j < k :: assignments[j].member == names[k] {
      var j :| 0 <= j < k && assignments[j].member == names[k];
      assert names[..k][j] == names[k];
    }
  }

  /** A request whose assignments are all to different members and of numbers in range gives what it says. */
  lemma GoodGives(members: seq<string>, parse: string -> Option<int>, percentage: bool, assignments: seq<Assignment>,
      names: seq<string>, texts: seq<string>, selectors: map<string, Selector>)
    requires Reads(assignments, percentage, names, texts)
    requires Taken(members, parse, percentage, assignments, |assignments|, selectors)
    ensures Gives(members, parse, percentage, names, texts, selectors)
  {
    hide Digits, IsPercentage, Fault;
    forall m | m in selectors && m !in names ensures selectors[m].value == 0 {
      assert Unassigned(assignments, |assignments|, m);
    }
  }

  /** Named assignments to different members, of numbers in range, are accepted and give what they say. */
  lemma NamedAccepted(startNode: string, members: seq<string>, tokens: seq<string>, parse: string -> Option<int>,
      percentage: bool, names: seq<string>, texts: seq<string>, r: Parsed)
    requires IsParsed(startNode, members, tokens, parse, r)
    requires startNode in members && tokens != [] && Spells(tokens, percentage, names, texts)
    requires forall k | 0 <= k < |names| ::
      names[k] in members && names[k] !in names[..k] && IsGood(parse, percentage, texts[k])
    ensures r.Selectors? && Gives(members, parse, percentage, names, texts, r.selectors)
  {
    SpelledReads(startNode, tokens, percentage, names, texts);
    AllGood(startNode, members, tokens, parse, percentage, names, texts, r);
  }

  lemma AllGood(startNode: string, members: seq<string>, tokens: seq<string>, parse: string -> Option<int>,
      percentage: bool, names: seq<string>, texts: seq<string>, r: Parsed)
    requires IsParsed(startNode, members, tokens, parse, r) && ShapeFault(startNode, members, tokens).None?
    requires names != [] && Reads(Assignments(startNode, tokens), percentage, names, texts)
    requires forall k | 0 <= k < |names| ::
      names[k] in members && names[k] !in names[..k] && IsGood(parse, percentage, texts[k])
    ensures r.Selectors? && Gives(members, parse, percentage, names, texts, r.selectors)
  {
    var assignments := Assignments(startNode, tokens);
    assert IsPercentage(assignments[0].token) == percentage;
    forall k | 0 <= k < |assignments| ensures Fault(members, parse, percentage, assignments, k).None? {
      FaultAt(members, parse, percentage, assignments, names, texts, k);
      assert IsGood(parse, percentage, texts[k]);
    }
    hide Fault, Taken, Gives, Reads, IsPercentage, Assignments, ShapeFault;
    if r.Selectors? { GoodGives(members, parse, percentage, assignments, names, texts, r.selectors); }
  }

  /** A lone number in range is the starting node's, and the other members get zero. */
  lemma LoneAccepted(startNode: string, members: seq<string>, parse: string -> Option<int>, percentage: bool,
      text: string, r: Parsed)
    requires IsParsed(startNode, members, [Written(text, percentage)], parse, r)
    requires startNode in members && IsValue(text, percentage) && IsGood(parse, percentage, text)
    ensures r.Selectors? && Gives(members, parse, percentage, [startNode], [text], r.selectors)
  {
    LoneReads(startNode, percentage, text);
    AllGood(startNode, members, [Written(text, percentage)], parse, percentage, [startNode], [text], r);
  }

  /** Of named assignments the first bad one is refused, for its reason. */
  lemma NamedRefused(startNode: string, members: seq<string>, tokens: seq<string>, parse: string -> Option<int>,
      percentage: bool, names: seq<string>, texts: seq<string>, k: nat, r: Parsed)
    requires IsParsed(startNode, members, tokens, parse, r) && startNode in members
    requires k < |tokens| && Spells(tokens, percentage, names, texts)
    requires forall j | 0 <= j < k ::
      names[j] in members && names[j] !in names[..j] && IsGood(parse, percentage, texts[j])
    ensures names[k] !in members ==> r == Invalid(MemberOutside(names[k]))
    ensures names[k] in members && names[k] in names[..k] ==> r == Invalid(MemberTwice(names[k]))
    ensures names[k] in members && names[k] !in names[..k] && parse(texts[k]).None? ==> r == Invalid(NotANumber)
    ensures (names[k] in members && names[k] !in names[..k] && parse(texts[k]).Some?
             && !InRange(parse(texts[k]).value, percentage)) ==> r == Invalid(OutOfRange)
  {
    SpelledReads(startNode, tokens, percentage, names, texts);
    FirstBad(startNode, members, tokens, parse, percentage, names, texts, k, r);
  }

  /** After good assignments the outcome is the fault of the next, if it has one. */
  lemma FaultDecides(members: seq<string>, parse: string -> Option<int>, percentage: bool,
      assignments: seq<Assignment>, k: nat, r: Parsed)
    requires r.Selectors? ==> Taken(members, parse, percentage, assignments, |assignments|, r.selectors)
    requires r.Invalid? ==> exists j: nat :: FirstFault(members, parse, percentage, assignments, j, r.reason)
    requires k < |assignments| && forall j | 0 <= j < k :: Fault(members, parse, percentage, assignments, j).None?
    ensures var fault := Fault(members, parse, percentage, assignments, k);
      fault.Some? ==> r == Invalid(fault.value)
  {
    hide Fault, Unassigned, Digits;
    if r.Invalid? {
      var j: nat :| FirstFault(members, parse, percentage, assignments, j, r.reason);
    }
  }

  lemma FirstBad(startNode: string, members: seq<string>, tokens: seq<string>, parse: string -> Option<int>,
      percentage: bool, names: seq<string>, texts: seq<string>, k: nat, r: Parsed)
    requires IsParsed(startNode, members, tokens, parse, r) && ShapeFault(startNode, members, tokens).None?
    requires Reads(Assignments(startNode, tokens), percentage, names, texts) && k < |names|
    requires forall j | 0 <= j < k ::
      names[j] in members && names[j] !in names[..j] && IsGood(parse, percentage, texts[j])
    ensures var fault := Fault(members, parse, percentage, Assignments(startNode, tokens), k);
      && (fault.Some? ==> r == Invalid(fault.value))
      && fault == if names[k] !in members then Some(MemberOutside(names[k]))
                  else if names[k] in names[..k] then Some(MemberTwice(names[k]))
                  else if parse(texts[k]).None? then Some(NotANumber)
                  else if !InRange(parse(texts[k]).value, percentage) then Some(OutOfRange)
                  else None
  {
    hide Fault, IsPercentage, Digits, Assignments, ShapeFault, Taken, FirstFault;
    var assignments := Assignments(startNode, tokens);
    assert IsPercentage(assignments[0].token) == percentage;
    FaultAt(members, parse, percentage, assignments, names, texts, k);
    forall j | 0 <= j < k ensures Fault(members, parse, percentage, assignments, j).None? {
      FaultAt(members, parse, percentage, assignments, names, texts, j);
      assert IsGood(parse, percentage, texts[j]);
    }
    FaultDecides(members, parse, percentage, assignments, k, r);
  }

  /** A lone value out of range is refused for its range, and a text that is no number for that. */
  lemma LoneRefused(startNode: string, members: seq<string>, parse: string -> Option<int>, percentage: bool,
      text: string, r: Parsed)
    requires IsParsed(startNode, members, [Written(text, percentage)], parse, r)
    requires startNode in members && IsValue(text, percentage)
    ensures parse(text).None? ==> r == Invalid(NotANumber)
    ensures parse(text).Some? && !InRange(parse(text).value, percentage) ==> r == Invalid(OutOfRange)
  {
    LoneReads(startNode, percentage, text);
    FirstBad(startNode, members, [Written(text, percentage)], parse, percentage, [startNode], [text], 0, r);
    assert [startNode][..0] == [];
  }

  /** A request that is neither one lone selector nor named assignments throughout is refused before any is read. */
  lemma ShapeRefused(startNode: string, members: seq<string>, tokens: seq<string>, parse: string -> Option<int>,
      r: Parsed)
    requires IsParsed(startNode, members, tokens, parse, r)
    ensures startNode !in members ==> r == Invalid(StartOutside)
    ensures startNode in members && (tokens == [] || ('=' !in tokens[0] && |tokens| > 1)) ==>
      r == Invalid(NoSingleSelector)
    ensures startNode in members && tokens != [] && '=' in tokens[0]
      && (exists k | 0 <= k < |tokens| :: '=' !in tokens[k])
      ==> r == Invalid(UnnamedAssignment)
  {
  }

  /** Every token with an equals sign is some `name=text`, with a percent sign or without. */
  lemma EveryTokenReads(token: string) returns (name: string, text: string, percentage: bool)
    requires '=' in token
    ensures IsValue(text, percentage) && token == name + "=" + Written(text, percentage)
  {
    var a := SplitLast(token);
    name, percentage := a.member, a.token != "" && a.token[|a.token| - 1] == '%';
    text := if percentage then a.token[..|a.token| - 1] else a.token;
    if percentage { assert a.token == text + "%"; }
  }

  lemma KindOf(token: string, name: string, text: string, percentage: bool)
    requires IsValue(text, percentage) && token == name + "=" + Written(text, percentage)
    ensures HasEquals(token) && IsPercentage(SplitLast(token).token) == percentage
  {
    WrittenIs(text, percentage);
    SplitAt(name, Written(text, percentage));
  }

  /** An assignment of the other kind than the first one's makes the request refused. */
  lemma MixedRefused(startNode: string, members: seq<string>, tokens: seq<string>, parse: string -> Option<int>,
      percentage: bool, name: string, text: string, k: nat, other: string, value: string, r: Parsed)
    requires IsParsed(startNode, members, tokens, parse, r) && k < |tokens|
    requires IsValue(text, percentage) && tokens[0] == name + "=" + Written(text, percentage)
    requires IsValue(value, !percentage) && tokens[k] == other + "=" + Written(value, !percentage)
    ensures r.Invalid?
  {
    KindOf(tokens[0], name, text, percentage);
    KindOf(tokens[k], other, value, !percentage);
    hide IsValue, Written, IsPercentage, SplitLast;
    if ShapeFault(startNode, members, tokens).None? { OtherKind(startNode, members, tokens, parse, k, r); }
  }

  lemma OtherKind(startNode: string, members: seq<string>, tokens: seq<string>, parse: string -> Option<int>, k: nat,
      r: Parsed)
    requires IsParsed(startNode, members, tokens, parse, r) && ShapeFault(startNode, members, tokens).None?
    requires k < |tokens| && HasEquals(tokens[0])
    requires IsPercentage(SplitLast(tokens[k]).token) != IsPercentage(SplitLast(tokens[0]).token)
    ensures r.Invalid?
  {
    hide IsPercentage, SplitLast, Digits;
    var assignments := Assignments(startNode, tokens);
    assert Fault(members, parse, IsPercentage(assignments[0].token), assignments, k).Some?;
  }
}
