/** Resource names of interface definitions and the five subtypes of an action. */
module DefinitionNames {
  import opened Wrappers
  import opened TextSplit

  predicate IsWordChar(c: char) {
    'a' <= c <= 'z' || 'A' <= c <= 'Z' || '0' <= c <= '9' || c == '_'
  }

  predicate IsWord(s: string) { s != "" && forall i | 0 <= i < |s| :: IsWordChar(s[i]) }

  datatype Name = Name(package: string, subfolder: string, typeName: string)

  /** The names `package/Type` and `package/{msg,srv,action}/Type`. */
  function Parse(name: string): (r: Option<Name>)
    ensures r.Some? ==> IsWord(r.value.package) && IsWord(r.value.typeName)
  {
    var parts := Split(name, "/");
    if |parts| == 2 && IsWord(parts[0]) && IsWord(parts[1]) then Some(Name(parts[0], "", parts[1]))
    else if |parts| == 3 && IsWord(parts[0]) && IsWord(parts[2]) && parts[1] in ["msg", "srv", "action"] then
      Some(Name(parts[0], parts[1], parts[2]))
    else None
  }

  function ActionName(package: string, typeName: string): string { package + "/action/" + typeName }

  lemma {:induction false} JoinThree(a: string, b: string, c: string)
    ensures Join([a, b, c], "/") == a + "/" + b + "/" + c
  {
    assert [a, b, c][1..] == [b, c] && [b, c][1..] == [c];
    assert Join([b, c], "/") == b + "/" + c;
    assert a + "/" + (b + "/" + c) == a + "/" + b + "/" + c;
  }

  lemma {:induction false} JoinTwo(a: string, b: string)
    ensures Join([a, b], "/") == a + "/" + b
  {
    assert [a, b][1..] == [b];
  }

  lemma {:induction false} SplitTwo(a: string, b: string)
    requires IsWord(a) && IsWord(b)
    ensures Split(a + "/" + b, "/") == [a, b]
  {
    JoinTwo(a, b);
    SplitJoin([a, b], '/');
  }

  lemma {:induction false} SplitThree(a: string, b: string, c: string)
    requires IsWord(a) && IsWord(b) && IsWord(c)
    ensures Split(a + "/" + b + "/" + c, "/") == [a, b, c]
  {
    JoinThree(a, b, c);
    SplitJoin([a, b, c], '/');
  }

  predicate IsSubfolder(s: string) { s == "msg" || s == "srv" || s == "action" }

  /** Exactly the names of the two forms are accepted, and taken apart as written. */
  lemma {:induction false} ParseIff(name: string, n: Name)
    ensures Parse(name) == Some(n) <==>
            && IsWord(n.package) && IsWord(n.typeName)
            && if n.subfolder == "" then name == n.package + "/" + n.typeName
               else IsSubfolder(n.subfolder) && name == n.package + "/" + n.subfolder + "/" + n.typeName
  {
    if Parse(name) == Some(n) { ParsedName(name); }
    if IsWord(n.package) && IsWord(n.typeName) {
      if n.subfolder == "" {
        SplitTwo(n.package, n.typeName);
      } else if IsSubfolder(n.subfolder) {
        assert IsWord(n.subfolder);
        SplitThree(n.package, n.subfolder, n.typeName);
      }
    }
  }

  lemma {:induction false} ParsedName(name: string)
    requires Parse(name).Some?
    ensures var n := Parse(name).value;
            if n.subfolder == "" then name == n.package + "/" + n.typeName
            else IsSubfolder(n.subfolder) && name == n.package + "/" + n.subfolder + "/" + n.typeName
  {
    var parts := Split(name, "/");
    JoinSplit(name, "/");
    if |parts| == 2 {
      assert parts == [parts[0], parts[1]];
      JoinTwo(parts[0], parts[1]);
    } else {
      assert parts == [parts[0], parts[1], parts[2]];
      JoinThree(parts[0], parts[1], parts[2]);
    }
  }

  /** Names the cache makes up for action subtypes parse back. */
  lemma {:induction false} ParseActionName(package: string, typeName: string)
    requires IsWord(package) && IsWord(typeName)
    ensures Parse(ActionName(package, typeName)) == Some(Name(package, "action", typeName))
  {
    assert package + "/" + "action" + "/" + typeName == ActionName(package, typeName);
    ParseIff(ActionName(package, typeName), Name(package, "action", typeName));
  }

  /** A parsed action name is the one the cache would make up for it. */
  lemma {:induction false} ActionNameParse(name: string)
    requires Parse(name).Some? && Parse(name).value.subfolder == "action"
    ensures name == ActionName(Parse(name).value.package, Parse(name).value.typeName)
  {
    var n := Parse(name).value;
    ParsedName(name);
    assert n.package + "/" + "action" + "/" + n.typeName == ActionName(n.package, n.typeName);
  }

  // ----------------------------------------------------------- action subtypes

  const FEEDBACK := "_FeedbackMessage"
  const RESULT_REQUEST := "_GetResult_Request"
  const RESULT_RESPONSE := "_GetResult_Response"
  const GOAL_REQUEST := "_SendGoal_Request"
  const GOAL_RESPONSE := "_SendGoal_Response"

  const SUFFIXES := [FEEDBACK, RESULT_REQUEST, RESULT_RESPONSE, GOAL_REQUEST, GOAL_RESPONSE]

  predicate EndsWith(s: string, suffix: string) { |s| >= |suffix| && s[|s| - |suffix|..] == suffix }

  function RemoveFrom(s: string, k: nat): string
    requires k <= |SUFFIXES|
    decreases |SUFFIXES| - k
  {
    if k == |SUFFIXES| then s
    else if EndsWith(s, SUFFIXES[k]) then s[..|s| - |SUFFIXES[k]|]
    else RemoveFrom(s, k + 1)
  }

  /** `remove_action_subtype`: the first suffix that matches is cut off. */
  function RemoveSubtype(s: string): string { RemoveFrom(s, 0) }

  lemma {:induction false} Differ(a: string, x: string, y: string, k: nat)
    requires 1 <= k <= |x| && k <= |y| && x[|x| - k] != y[|y| - k]
    ensures !EndsWith(a + x, y)
  {
    var s := a + x;
    assert s[|s| - k] == x[|x| - k];
    if |s| >= |y| { assert s[|s| - |y|..][|y| - k] == s[|s| - k]; }
  }

  /** No suffix is a suffix of another, so at most one matches. */
  lemma {:induction false} OnlyOneSuffix(a: string, i: nat, j: nat)
    requires i < j < |SUFFIXES|
    ensures !EndsWith(a + SUFFIXES[i], SUFFIXES[j]) && !EndsWith(a + SUFFIXES[j], SUFFIXES[i])
  {
    var k := if i == 0 then (if j == 1 || j == 3 then 1 else 2)
             else if i == 1 && j == 3 then 9
             else if i == 2 && j == 4 then 10
             else 1;
    Differ(a, SUFFIXES[i], SUFFIXES[j], k);
    Differ(a, SUFFIXES[j], SUFFIXES[i], k);
  }

  lemma {:induction false} RemoveFromSuffix(a: string, i: nat, k: nat)
    requires k <= i < |SUFFIXES|
    ensures RemoveFrom(a + SUFFIXES[i], k) == a
    decreases i - k
  {
    var s := a + SUFFIXES[i];
    if k == i {
      assert s[|s| - |SUFFIXES[i]|..] == SUFFIXES[i] && s[..|s| - |SUFFIXES[i]|] == a;
    } else {
      OnlyOneSuffix(a, k, i);
      RemoveFromSuffix(a, i, k + 1);
    }
  }

  /** Every subtype leads back to its action, even when the action's own name ends like
      a subtype. */
  lemma {:induction false} RemoveSubtypeSuffix(a: string, i: nat)
    requires i < |SUFFIXES|
    ensures RemoveSubtype(a + SUFFIXES[i]) == a
  {
    RemoveFromSuffix(a, i, 0);
  }

  /** Otherwise the name is left alone. */
  lemma {:induction false} RemoveFromShape(s: string, k: nat) returns (i: nat)
    requires k <= |SUFFIXES|
    ensures k <= i <= |SUFFIXES|
    ensures if i == |SUFFIXES| then RemoveFrom(s, k) == s else s == RemoveFrom(s, k) + SUFFIXES[i]
    decreases |SUFFIXES| - k
  {
    if k == |SUFFIXES| { i := k; }
    else if EndsWith(s, SUFFIXES[k]) {
      i := k;
      assert s == s[..|s| - |SUFFIXES[k]|] + s[|s| - |SUFFIXES[k]|..];
    } else { i := RemoveFromShape(s, k + 1); }
  }

  lemma {:induction false} SuffixesAreWords()
    ensures forall i | 0 <= i < |SUFFIXES| :: IsWord(SUFFIXES[i])
  {
    assert IsWord(FEEDBACK) && IsWord(RESULT_REQUEST) && IsWord(RESULT_RESPONSE) && IsWord(GOAL_REQUEST) && IsWord(GOAL_RESPONSE);
  }

  /** Cutting a subtype off and putting any other on gives a word again. */
  lemma {:induction false} SubtypeIsWord(typeName: string, i: nat)
    requires IsWord(typeName) && i < |SUFFIXES|
    ensures IsWord(RemoveSubtype(typeName) + SUFFIXES[i])
  {
    var k := RemoveFromShape(typeName, 0);
    var a := RemoveSubtype(typeName);
    assert forall j | 0 <= j < |a| :: a[j] == typeName[j];
    SuffixesAreWords();
  }
}
