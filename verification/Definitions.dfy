/** Loading interface definitions through the cache of the bridge. */
module Definitions {
  import opened Wrappers
  import opened TextSplit
  import opened DefinitionNames

  datatype Format = IDL | MSG | SRV_REQ | SRV_RESP

  datatype Id = Id(format: Format, name: string)

  datatype Spec = Spec(text: string, deps: seq<string>, format: Format)

  /** A file of a package: its contents, not listed or not readable, or the package
      itself unknown, which is a different exception. */
  datatype File = Contents(text: string) | Missing | Broken

  /** The installed packages and the dependency parser, both fixed. */
  datatype Env = Env(files: (string, string) -> File, deps: (Format, string, string) -> seq<string>)

  /** `NotFound` is DefinitionNotFoundError, `Invalid` every other exception. */
  datatype Loaded = Found(spec: Spec) | NotFound | Invalid

  function MakeSpec(env: Env, format: Format, text: string, package: string): Spec {
    Spec(text, env.deps(format, text, package), format)
  }

  function Extension(format: Format): string { if format == IDL then ".idl" else ".msg" }

  // --------------------------------------------------- loading without a cache

  const UUID := "unique_identifier_msgs/UUID goal_id\n"

  /** The definitions of the five subtypes, in the order of `SUFFIXES`. */
  function ActionTexts(goal: string, result: string, feedback: string): (r: seq<string>)
    ensures |r| == |SUFFIXES|
  {
    [UUID + feedback, UUID, "int8 status\n" + result, UUID + goal, "bool accepted\nbuiltin_interfaces/msg/Time stamp"]
  }

  /** The contents of an action file as the five definitions. */
  function ActionDefinitions(text: string): (r: Option<seq<string>>)
    ensures r.Some? ==> |r.value| == |SUFFIXES|
  {
    match SplitAction(text)
    case None => None
    case Some((goal, result, feedback)) => Some(ActionTexts(goal, result, feedback))
  }

  /** The position of the subtype a type name asks for, or the number of subtypes. */
  function SubtypeFrom(typeName: string, action: string, k: nat): (i: nat)
    requires k <= |SUFFIXES|
    ensures k <= i <= |SUFFIXES| && (i < |SUFFIXES| ==> typeName == action + SUFFIXES[i])
    ensures i == |SUFFIXES| ==> forall j | k <= j < |SUFFIXES| :: typeName != action + SUFFIXES[j]
    decreases |SUFFIXES| - k
  {
    if k == |SUFFIXES| || typeName == action + SUFFIXES[k] then k else SubtypeFrom(typeName, action, k + 1)
  }

  function FreshAction(env: Env, format: Format, package: string, typeName: string): Loaded {
    var action := RemoveSubtype(typeName);
    match env.files(package, action + ".action")
    case Missing => NotFound
    case Broken => Invalid
    case Contents(text) =>
      if format != MSG then NotFound
      else
        match ActionDefinitions(text)
        case None => Invalid
        case Some(texts) =>
          var i := SubtypeFrom(typeName, action, 0);
          if i == |SUFFIXES| then NotFound else Found(MakeSpec(env, MSG, texts[i], package))
  }

  function FreshMessage(env: Env, id: Id): Loaded {
    match Parse(id.name)
    case None => Invalid
    case Some(Name(package, subfolder, typeName)) =>
      if subfolder == "action" then FreshAction(env, id.format, package, typeName)
      else
        match env.files(package, typeName + Extension(id.format))
        case Missing => NotFound
        case Broken => Invalid
        case Contents(text) => Found(MakeSpec(env, id.format, text, package))
  }

  function ServicePart(format: Format, text: string): Option<string> {
    match SplitService(text)
    case None => None
    case Some((request, response)) => Some(if format == SRV_REQ then request else response)
  }

  function FreshService(env: Env, id: Id): Loaded {
    match Parse(id.name)
    case None => Invalid
    case Some(Name(package, subfolder, typeName)) =>
      if subfolder != "srv" && subfolder != "" then Invalid
      else
        var file := if subfolder == "srv" then typeName + ".srv" else typeName + Extension(id.format);
        match env.files(package, file)
        case Missing => NotFound
        case Broken => Invalid
        case Contents(text) =>
          if subfolder == "" then Found(MakeSpec(env, id.format, text, package))
          else
            match ServicePart(id.format, text)
            case None => Invalid
            case Some(part) => Found(MakeSpec(env, id.format, part, package))
  }

  predicate IsServiceFormat(format: Format) { format == SRV_REQ || format == SRV_RESP }

  /** What a load gives with an empty cache; messages and services use different loaders. */
  function Fresh(env: Env, id: Id): Loaded {
    if IsServiceFormat(id.format) then FreshService(env, id) else FreshMessage(env, id)
  }

  // -------------------------------------------------- what each name loads

  /** The load gives this text, with the dependencies the parser finds in it. */
  ghost predicate Loads(env: Env, id: Id, text: string, package: string) {
    Fresh(env, id) == Found(Spec(text, env.deps(id.format, text, package), id.format))
  }

  function FullName(package: string, subfolder: string, typeName: string): string {
    if subfolder == "" then package + "/" + typeName else package + "/" + subfolder + "/" + typeName
  }

  /** A message name, with or without subfolder, stands for `Type.msg` of the package, or for
      `Type.idl`; a file that is not there and a package that is not there are told apart. */
  lemma {:induction false} MessageLoads(env: Env, package: string, subfolder: string, typeName: string)
    requires IsWord(package) && IsWord(typeName) && (subfolder == "" || subfolder == "msg" || subfolder == "srv")
    ensures var name := FullName(package, subfolder, typeName);
            && (match env.files(package, typeName + ".msg")
                case Contents(text) => Loads(env, Id(MSG, name), text, package)
                case Missing => Fresh(env, Id(MSG, name)) == NotFound
                case Broken => Fresh(env, Id(MSG, name)) == Invalid)
            && (match env.files(package, typeName + ".idl")
                case Contents(text) => Loads(env, Id(IDL, name), text, package)
                case Missing => Fresh(env, Id(IDL, name)) == NotFound
                case Broken => Fresh(env, Id(IDL, name)) == Invalid)
  {
    ParseIff(FullName(package, subfolder, typeName), Name(package, subfolder, typeName));
  }

  /** A service name stands for `Type.srv`: its request is the lines of the file before the first
      separator and its response the other lines that are no separator, each line with its end.
      A file of one line that is no separator is refused. */
  lemma {:induction false} ServiceLoads(env: Env, package: string, typeName: string, text: string)
    requires IsWord(package) && IsWord(typeName) && env.files(package, typeName + ".srv") == Contents(text)
    ensures var name, lines := package + "/srv/" + typeName, Split(Normal(text), "\n");
            if |lines| == 1 && lines[0] != "---" then
              Fresh(env, Id(SRV_REQ, name)) == Invalid && Fresh(env, Id(SRV_RESP, name)) == Invalid
            else
              && Loads(env, Id(SRV_REQ, name), Terminated(Request(lines)), package)
              && Loads(env, Id(SRV_RESP, name), Terminated(Response(lines)), package)
  {
    ServiceName(package, typeName);
  }

  /** A name without subfolder that a service depends on stands for the message `Type.msg`. */
  lemma {:induction false} DependencyLoads(env: Env, format: Format, package: string, typeName: string)
    requires IsWord(package) && IsWord(typeName) && IsServiceFormat(format)
    ensures var id := Id(format, package + "/" + typeName);
            match env.files(package, typeName + ".msg")
            case Contents(text) => Loads(env, id, text, package)
            case Missing => Fresh(env, id) == NotFound
            case Broken => Fresh(env, id) == Invalid
  {
    ParseIff(package + "/" + typeName, Name(package, "", typeName));
  }

  lemma {:induction false} ServiceName(package: string, typeName: string)
    requires IsWord(package) && IsWord(typeName)
    ensures Parse(package + "/srv/" + typeName) == Some(Name(package, "srv", typeName))
  {
    assert package + "/" + "srv" + "/" + typeName == package + "/srv/" + typeName;
    ParseIff(package + "/srv/" + typeName, Name(package, "srv", typeName));
  }

  /** An action file with goal `g`, result `r` and feedback `f` gives each of the five names its
      own part of the file. */
  lemma {:induction false} ActionLoads(env: Env, package: string, action: string, g: string, r: string, f: string)
    requires IsWord(package) && IsWord(action)
    requires env.files(package, action + ".action") == Contents(g + "\n---\n" + r + "\n---\n" + f)
    requires Split(g + "\n---\n" + r + "\n---\n" + f, "\n---\n") == [g, r, f]
    ensures var name := package + "/action/" + action;
            && Loads(env, Id(MSG, name + "_FeedbackMessage"), "unique_identifier_msgs/UUID goal_id\n" + f, package)
            && Loads(env, Id(MSG, name + "_GetResult_Request"), "unique_identifier_msgs/UUID goal_id\n", package)
            && Loads(env, Id(MSG, name + "_GetResult_Response"), "int8 status\n" + r, package)
            && Loads(env, Id(MSG, name + "_SendGoal_Request"), "unique_identifier_msgs/UUID goal_id\n" + g, package)
            && Loads(env, Id(MSG, name + "_SendGoal_Response"), "bool accepted\nbuiltin_interfaces/msg/Time stamp", package)
  {
    var text := g + "\n---\n" + r + "\n---\n" + f;
    SubtypeLoads(env, package, action, text, 0);
    SubtypeLoads(env, package, action, text, 1);
    SubtypeLoads(env, package, action, text, 2);
    SubtypeLoads(env, package, action, text, 3);
    SubtypeLoads(env, package, action, text, 4);
  }

  lemma {:induction false} SubtypeLoads(env: Env, package: string, action: string, text: string, i: nat)
    requires IsWord(package) && IsWord(action) && i < |SUFFIXES|
    requires env.files(package, action + ".action") == Contents(text) && ActionDefinitions(text).Some?
    ensures Loads(env, Id(MSG, package + "/action/" + action + SUFFIXES[i]), ActionDefinitions(text).value[i], package)
  {
    SuffixesAreWords();
    assert IsWord(action + SUFFIXES[i]);
    ParseActionName(package, action + SUFFIXES[i]);
    assert ActionName(package, action + SUFFIXES[i]) == package + "/action/" + action + SUFFIXES[i];
    RemoveSubtypeSuffix(action, i);
    SubtypeFound(action, i, 0);
  }

  // ------------------------------------------------------------------ the cache

  type Cache = map<Id, Spec>

  /** Every cached entry is what a load without the cache would give. */
  ghost predicate Transparent(env: Env, cache: Cache) {
    forall id | id in cache :: Fresh(env, id) == Found(cache[id])
  }

  ghost predicate Extends(cache: Cache, cache': Cache) {
    forall id | id in cache :: id in cache' && cache'[id] == cache[id]
  }

  /** Any of the five subtypes, loaded on its own, gives the text the cache stores. */
  lemma {:induction false} SubtypeIsFresh(env: Env, package: string, typeName: string, text: string, i: nat)
    requires IsWord(package) && IsWord(typeName) && i < |SUFFIXES|
    requires env.files(package, RemoveSubtype(typeName) + ".action") == Contents(text) && ActionDefinitions(text).Some?
    ensures Fresh(env, Id(MSG, ActionName(package, RemoveSubtype(typeName) + SUFFIXES[i]))) ==
            Found(MakeSpec(env, MSG, ActionDefinitions(text).value[i], package))
  {
    var action := RemoveSubtype(typeName);
    SubtypeIsWord(typeName, i);
    ParseActionName(package, action + SUFFIXES[i]);
    RemoveSubtypeSuffix(action, i);
    SubtypeFound(action, i, 0);
  }

  lemma {:induction false} SubtypeFound(action: string, i: nat, k: nat)
    requires k <= i < |SUFFIXES|
    ensures SubtypeFrom(action + SUFFIXES[i], action, k) == i
    decreases i - k
  {
    if k < i {
      OnlyOneSuffix(action, k, i);
      assert EndsWith(action + SUFFIXES[k], SUFFIXES[k]);
      SubtypeFound(action, i, k + 1);
    }
  }

  class MessageDefinitionCache {
    const env: Env
    var specs: Cache

    constructor (env: Env)
      ensures this.env == env && specs == map[] && Valid()
    {
      this.env, specs := env, map[];
    }

    ghost predicate Valid()
      reads this
    {
      Transparent(env, specs)
    }

    /** `emplace`: an entry already there stays. */
    method Emplace(id: Id, spec: Spec)
      requires Valid() && Fresh(env, id) == Found(spec)
      modifies this
      ensures Valid() && Extends(old(specs), specs) && id in specs
      ensures specs.Keys == old(specs).Keys + {id}
    {
      if id !in specs { specs := specs[id := spec]; }
    }

    /** The definitions of all five subtypes go into the cache together. */
    method EmplaceSubtypes(package: string, typeName: string, text: string, texts: seq<string>)
      requires Valid() && IsWord(package) && IsWord(typeName)
      requires env.files(package, RemoveSubtype(typeName) + ".action") == Contents(text)
      requires ActionDefinitions(text) == Some(texts)
      modifies this
      ensures Valid() && Extends(old(specs), specs)
      ensures forall id :: id in specs <==>
                id in old(specs) || exists i | 0 <= i < |SUFFIXES| :: id == Id(MSG, ActionName(package, RemoveSubtype(typeName) + SUFFIXES[i]))
    {
      var action := RemoveSubtype(typeName);
      for i := 0 to |SUFFIXES|
        invariant Valid() && Extends(old(specs), specs)
        invariant forall id :: id in specs <==>
                    id in old(specs) || exists j | 0 <= j < i :: id == Id(MSG, ActionName(package, action + SUFFIXES[j]))
      {
        SubtypeIsFresh(env, package, typeName, text, i);
        Emplace(Id(MSG, ActionName(package, action + SUFFIXES[i])), MakeSpec(env, MSG, texts[i], package));
      }
    }

    /** `load_message_spec` for an action, after the lookup in the cache failed. */
    method LoadAction(id: Id, name: Name) returns (r: Loaded)
      requires Valid() && !IsServiceFormat(id.format) && id !in specs
      requires Parse(id.name) == Some(name) && name.subfolder == "action"
      modifies this
      ensures Valid() && Extends(old(specs), specs) && r == Fresh(env, id)
    {
      var action := RemoveSubtype(name.typeName);
      match env.files(name.package, action + ".action")
      case Missing => return NotFound;
      case Broken => return Invalid;
      case Contents(text) =>
        if id.format != MSG { return NotFound; }
        match ActionDefinitions(text)
        case None => return Invalid;
        case Some(texts) =>
          ActionNameParse(id.name);
          EmplaceSubtypes(name.package, name.typeName, text, texts);
          if id in specs { return Found(specs[id]); }
          SubtypeMissing(id.name, name.package, name.typeName, action, specs.Keys);
          return NotFound;
    }

    /** `load_message_spec`: after any history, failed calls included, the result is that
        of a load without a cache. */
    method LoadMessageSpec(id: Id) returns (r: Loaded)
      requires Valid() && !IsServiceFormat(id.format)
      modifies this
      ensures Valid() && Extends(old(specs), specs) && r == Fresh(env, id)
    {
      if id in specs { return Found(specs[id]); }
      match Parse(id.name)
      case None => return Invalid;
      case Some(name) =>
        if name.subfolder == "action" {
          r := LoadAction(id, name);
          return;
        }
        match env.files(name.package, name.typeName + Extension(id.format))
        case Missing => return NotFound;
        case Broken => return Invalid;
        case Contents(text) =>
          Emplace(id, MakeSpec(env, id.format, text, name.package));
          return Found(specs[id]);
    }

    /** `load_service_spec` */
    method LoadServiceSpec(id: Id) returns (r: Loaded)
      requires Valid() && IsServiceFormat(id.format)
      modifies this
      ensures Valid() && Extends(old(specs), specs) && r == Fresh(env, id)
    {
      if id in specs { return Found(specs[id]); }
      match Parse(id.name)
      case None => return Invalid;
      case Some(name) =>
        if name.subfolder != "srv" && name.subfolder != "" { return Invalid; }
        var isService := name.subfolder == "srv";
        var filename := if isService then name.typeName + ".srv" else name.typeName + Extension(id.format);
        match env.files(name.package, filename)
        case Missing => return NotFound;
        case Broken => return Invalid;
        case Contents(text) =>
          var contents := text;
          if isService {
            var parts := SplitServiceDefinition(text);
            if parts.None? { return Invalid; }
            contents := if id.format == SRV_REQ then parts.value.0 else parts.value.1;
          }
          Emplace(id, MakeSpec(env, id.format, contents, name.package));
          return Found(specs[id]);
    }
  }

  /** A type name that is none of the five subtypes is not among the stored names. */
  lemma {:induction false} SubtypeMissing(name: string, package: string, typeName: string, action: string, keys: set<Id>)
    requires name == ActionName(package, typeName) && Id(MSG, name) !in keys
    requires forall i | 0 <= i < |SUFFIXES| :: Id(MSG, ActionName(package, action + SUFFIXES[i])) in keys
    ensures SubtypeFrom(typeName, action, 0) == |SUFFIXES|
  {
    assert forall i | 0 <= i < |SUFFIXES| :: Id(MSG, ActionName(package, action + SUFFIXES[i])) != Id(MSG, name);
  }
}
