/** Descriptions of nodes and credentials, and the description of a tool made from a node.

    The options of a parameter are held by reference when the description is stored, and
    by content when it is read; a description is generic in which of the two it holds. */
module NodeDescriptions {
  import opened Options

  datatype Choice = Choice(name: string, value: string)

  const CUSTOM_API_CALL_NAME := "Custom API Call"
  const CUSTOM_API_CALL := Choice(CUSTOM_API_CALL_NAME, "__CUSTOM_API_CALL__")

  /** What a parameter holds besides its name, kind and options. */
  datatype Detail =
    | Own(json: string)
    | Notice
    | DescriptionType
    | ToolDescription(default: string, onlyWhenManual: bool)

  datatype Property<+O> = Property(name: string, kind: string, options: Option<O>, detail: Detail)

  datatype Version = Single(number: int) | Several(numbers: seq<int>)

  datatype Codex = Codex(
    categories: seq<string>,
    subcategories: map<string, seq<string>>,
    resources: map<string, string>)

  datatype Node<+O> = Node(
    name: string,
    displayName: string,
    description: string,
    version: Version,
    defaultVersion: Option<int>,
    credentials: Option<seq<string>>,
    usableAsTool: Option<bool>,
    inputs: seq<string>,
    outputs: seq<string>,
    codex: Option<Codex>,
    properties: Option<seq<Property<O>>>)

  datatype CredentialType = CredentialType(
    name: string,
    authenticates: bool,
    parents: Option<seq<string>>,
    supportedNodes: Option<seq<string>>,
    rest: string)

  // ---------- which nodes qualify ----------

  /** An array of versions is never identical to a default version. */
  predicate IsLatest<O>(n: Node<O>) {
    n.defaultVersion.None? || n.version == Single(n.defaultVersion.value)
  }

  function FindCredential(credentials: seq<CredentialType>, name: string): Option<CredentialType> {
    if credentials == [] then None
    else if credentials[0].name == name then Some(credentials[0])
    else FindCredential(credentials[1..], name)
  }

  predicate MayAuthenticate(c: CredentialType) {
    || c.authenticates
    || (c.parents.Some? && exists p :: p in c.parents.value && p in {"oAuth2Api", "googleOAuth2Api", "oAuth1Api"})
  }

  predicate SupportsProxyAuth<O>(n: Node<O>, credentials: seq<CredentialType>) {
    && n.credentials.Some?
    && exists name :: name in n.credentials.value
         && FindCredential(credentials, name).Some? && MayAuthenticate(FindCredential(credentials, name).value)
  }

  predicate Qualifies<O>(n: Node<O>, credentials: seq<CredentialType>) {
    IsLatest(n) && SupportsProxyAuth(n, credentials)
  }

  /** The first credential type of that name. */
  ghost predicate IsFirstNamed(credentials: seq<CredentialType>, name: string, j: nat) {
    j < |credentials| && credentials[j].name == name && forall m :: 0 <= m < j ==> credentials[m].name != name
  }

  lemma {:induction false} FindsTheFirst(credentials: seq<CredentialType>, name: string)
    ensures FindCredential(credentials, name).Some? <==> exists j: nat :: IsFirstNamed(credentials, name, j)
    ensures forall j: nat :: IsFirstNamed(credentials, name, j) ==>
              FindCredential(credentials, name) == Some(credentials[j])
    decreases |credentials|
  {
    if credentials == [] {
    } else {
      var rest := credentials[1..];
      FindsTheFirst(rest, name);
      forall j: nat | IsFirstNamed(credentials, name, j)
        ensures FindCredential(credentials, name) == Some(credentials[j])
      {
        if j > 0 {
          assert credentials[0].name != name;
          assert forall m :: 0 <= m < j - 1 ==> rest[m] == credentials[m + 1];
          assert IsFirstNamed(rest, name, j - 1);
        }
      }
      if credentials[0].name == name {
        assert IsFirstNamed(credentials, name, 0);
      } else if j: nat :| IsFirstNamed(rest, name, j) {
        assert forall m :: 0 < m < j + 1 ==> credentials[m] == rest[m - 1];
        assert IsFirstNamed(credentials, name, j + 1);
      }
    }
  }

  /** The type authenticates requests itself, or names one of three types that do. */
  ghost predicate LetsAuthenticate(c: CredentialType) {
    c.authenticates
    || (c.parents.Some?
        && ("oAuth2Api" in c.parents.value || "googleOAuth2Api" in c.parents.value || "oAuth1Api" in c.parents.value))
  }

  /** A node qualifies exactly if it has no default version or its one version is the default, and one of the
      credential names it uses belongs to a type, the first of that name, that lets it authenticate. */
  lemma QualifiesExactlyWhen<O>(n: Node<O>, credentials: seq<CredentialType>)
    ensures Qualifies(n, credentials) <==>
              && (n.defaultVersion == None || n.version == Single(n.defaultVersion.value))
              && n.credentials.Some?
              && exists name, j: nat :: name in n.credentials.value && IsFirstNamed(credentials, name, j)
                   && LetsAuthenticate(credentials[j])
  {
    forall c: CredentialType ensures MayAuthenticate(c) <==> LetsAuthenticate(c) {
    }
    forall name
      ensures FindCredential(credentials, name).Some? <==> exists j: nat :: IsFirstNamed(credentials, name, j)
    {
      FindsTheFirst(credentials, name);
    }
    forall name, j: nat | IsFirstNamed(credentials, name, j)
      ensures FindCredential(credentials, name) == Some(credentials[j])
    {
      FindsTheFirst(credentials, name);
    }
  }

  predicate IsTargetName(name: string) {
    name == "resource" || name == "operation"
  }

  // ---------- tools ----------

  predicate HasProperty<O>(properties: seq<Property<O>>, name: string) {
    exists i :: 0 <= i < |properties| && properties[i].name == name
  }

  /** The parameters put before those of the node; `auto` holds the choices of the one with options. */
  function ToolPrefix<O>(properties: seq<Property<O>>, description: string, auto: O): (prefix: seq<Property<O>>)
    ensures forall i :: 0 <= i < |prefix| ==> !IsTargetName(prefix[i].name)
  {
    var chosen := HasProperty(properties, "resource") || HasProperty(properties, "operation");
    var text := Property("toolDescription", "string", None, ToolDescription(description, chosen));
    var notice := Property("notice", "notice", None, Notice);
    assert |"toolDescription"| == 15 && |"notice"| == 6 && |"descriptionType"| == 15;
    if HasProperty(properties, "toolDescription") then []
    else if chosen then [notice, Property("descriptionType", "options", Some(auto), DescriptionType), text]
    else [notice, text]
  }

  /** The description of the tool made from `n`. A base description without parameters keeps
      its name and its flag. */
  function ToolOf<O>(n: Node<O>, auto: O): Node<O> {
    var tool :=
      if n.properties.None? then n
      else n.(name := n.name + "Tool", displayName := n.displayName + " Tool",
              inputs := [], outputs := ["ai_tool"], usableAsTool := None,
              properties := Some(ToolPrefix(n.properties.value, n.description, auto) + n.properties.value));
    tool.(codex := Some(Codex(["AI"], map["AI" := ["Tools"], "Tools" := ["Other Tools"]],
                              if n.codex.Some? then n.codex.value.resources else map[])))
  }

  const AUTO_CHOICES := [Choice("Set Automatically", "auto"), Choice("Set Manually", "manual")]

  /** A tool qualifies for the injection exactly if its node does. */
  lemma ToolQualifies<O>(n: Node<O>, auto: O, credentials: seq<CredentialType>)
    ensures Qualifies(ToolOf(n, auto), credentials) <==> Qualifies(n, credentials)
  {
  }

  /** A tool can be described, keeps the parameters of its node as its last ones, is not itself
      made into a tool, and a second conversion would add no parameter. */
  lemma ToolIsComplete<O>(n: Node<O>, auto: O)
    requires n.properties.Some?
    ensures var tool := ToolOf(n, auto);
            && tool.usableAsTool.None? && tool.properties.Some?
            && HasProperty(tool.properties.value, "toolDescription")
            && |tool.properties.value| >= |n.properties.value|
            && tool.properties.value[|tool.properties.value| - |n.properties.value|..] == n.properties.value
            && ToolPrefix(tool.properties.value, tool.description, auto) == []
  {
    var own := n.properties.value;
    var prefix := ToolPrefix(own, n.description, auto);
    var all := prefix + own;
    if HasProperty(own, "toolDescription") {
      assert all == own;
    } else {
      assert all[|prefix| - 1].name == "toolDescription";
    }
    assert all[|prefix|..] == own;
  }

  /** The parameters that a tool has before those of its node: none if the node describes its tool already, or
      else a notice, the choice of describing it by hand if the node has resources or operations, and the
      description of the node. */
  ghost predicate IsAdded(n: Node<seq<Choice>>, own: seq<Property<seq<Choice>>>, added: seq<Property<seq<Choice>>>) {
    var chosen := exists i :: 0 <= i < |own| && (own[i].name == "resource" || own[i].name == "operation");
    if exists i :: 0 <= i < |own| && own[i].name == "toolDescription" then added == []
    else
      && |added| == (if chosen then 3 else 2)
      && added[0] == Property("notice", "notice", None, Notice)
      && (chosen ==>
            added[1] == Property("descriptionType", "options",
                                 Some([Choice("Set Automatically", "auto"), Choice("Set Manually", "manual")]),
                                 DescriptionType))
      && added[|added| - 1] == Property("toolDescription", "string", None, ToolDescription(n.description, chosen))
  }

  lemma PrefixIsAdded(n: Node<seq<Choice>>, own: seq<Property<seq<Choice>>>)
    ensures IsAdded(n, own, ToolPrefix(own, n.description, AUTO_CHOICES))
  {
  }

  /** How the tool made from a full description reads: its name and display name are marked, it has no inputs,
      gives an AI tool, and is listed among the other tools with the resources of its node. */
  lemma ToolReads(n: Node<seq<Choice>>)
    requires n.properties.Some?
    ensures exists added ::
              && IsAdded(n, n.properties.value, added)
              && ToolOf(n, AUTO_CHOICES)
                 == Node(n.name + "Tool", n.displayName + " Tool", n.description, n.version, n.defaultVersion,
                         n.credentials, None, [], ["ai_tool"],
                         Some(Codex(["AI"], map["AI" := ["Tools"], "Tools" := ["Other Tools"]],
                                    if n.codex.Some? then n.codex.value.resources else map[])),
                         Some(added + n.properties.value))
  {
    PrefixIsAdded(n, n.properties.value);
  }

  /** A base description, without parameters, keeps all but its codex. */
  lemma BaseToolReads(n: Node<seq<Choice>>)
    requires n.properties.None?
    ensures ToolOf(n, AUTO_CHOICES)
         == n.(codex := Some(Codex(["AI"], map["AI" := ["Tools"], "Tools" := ["Other Tools"]],
                                   if n.codex.Some? then n.codex.value.resources else map[])))
  {
  }

  // ---------- options by reference ----------

  type Ref = nat
  type Arrays = map<Ref, seq<Choice>>

  function At(arrays: Arrays, r: Ref): seq<Choice> {
    if r in arrays then arrays[r] else []
  }

  function ReadProperty(p: Property<Ref>, arrays: Arrays): Property<seq<Choice>> {
    Property(p.name, p.kind, if p.options.Some? then Some(At(arrays, p.options.value)) else None, p.detail)
  }

  function ReadProperties(properties: seq<Property<Ref>>, arrays: Arrays): (read: seq<Property<seq<Choice>>>)
    ensures |read| == |properties|
    ensures forall i :: 0 <= i < |read| ==> read[i] == ReadProperty(properties[i], arrays)
  {
    seq(|properties|, i requires 0 <= i < |properties| => ReadProperty(properties[i], arrays))
  }

  /** The description as a reader sees it. */
  function Read(n: Node<Ref>, arrays: Arrays): Node<seq<Choice>> {
    Node(n.name, n.displayName, n.description, n.version, n.defaultVersion, n.credentials, n.usableAsTool,
         n.inputs, n.outputs, n.codex,
         if n.properties.Some? then Some(ReadProperties(n.properties.value, arrays)) else None)
  }

  function ReadAll(nodes: seq<Node<Ref>>, arrays: Arrays): (read: seq<Node<seq<Choice>>>)
    ensures |read| == |nodes|
    ensures forall i :: 0 <= i < |read| ==> read[i] == Read(nodes[i], arrays)
  {
    seq(|nodes|, i requires 0 <= i < |nodes| => Read(nodes[i], arrays))
  }

  function PropertyRefs(properties: seq<Property<Ref>>): set<Ref> {
    set i | 0 <= i < |properties| && properties[i].options.Some? :: properties[i].options.value
  }

  function RefsOf(n: Node<Ref>): set<Ref> {
    if n.properties.None? then {} else PropertyRefs(n.properties.value)
  }

  /** Making a tool and reading it commute. */
  lemma ReadOfTool(n: Node<Ref>, auto: Ref, arrays: Arrays)
    requires At(arrays, auto) == AUTO_CHOICES
    ensures Read(ToolOf(n, auto), arrays) == ToolOf(Read(n, arrays), AUTO_CHOICES)
  {
    if n.properties.Some? {
      var own := n.properties.value;
      var read := ReadProperties(own, arrays);
      forall name ensures HasProperty(read, name) <==> HasProperty(own, name) {
        if HasProperty(own, name) {
          var i :| 0 <= i < |own| && own[i].name == name;
          assert read[i].name == name;
        }
      }
      var prefix := ToolPrefix(own, n.description, auto);
      assert ReadProperties(prefix, arrays) == ToolPrefix(read, n.description, AUTO_CHOICES);
      assert ReadProperties(prefix + own, arrays) == ReadProperties(prefix, arrays) + read;
    }
  }

  // ---------- cloning ----------

  /** A copy whose references are new; properties that share options still do. */
  function Moved(n: Node<Ref>, offset: nat): Node<Ref> {
    if n.properties.None? then n
    else n.(properties := Some(MovedProperties(n.properties.value, offset)))
  }

  function MovedProperties(properties: seq<Property<Ref>>, offset: nat): (moved: seq<Property<Ref>>)
    ensures |moved| == |properties|
  {
    seq(|properties|, i requires 0 <= i < |properties| =>
      properties[i].(options :=
        if properties[i].options.Some? then Some(offset + properties[i].options.value) else None))
  }

  /** The arrays of the copy. */
  function MovedArrays(arrays: Arrays, refs: set<Ref>, offset: nat): Arrays {
    map f | f in MovedRefs(refs, offset) :: At(arrays, f - offset)
  }

  function MovedRefs(refs: set<Ref>, offset: nat): set<Ref> {
    set r | r in refs :: offset + r
  }

  lemma MovedArraysAt(arrays: Arrays, refs: set<Ref>, offset: nat, r: Ref)
    requires r in refs
    ensures var moved := MovedArrays(arrays, refs, offset); offset + r in moved && moved[offset + r] == At(arrays, r)
  {
    assert offset + r in MovedRefs(refs, offset);
  }

  /** A copy reads as the original did, through whatever changes its arrays consistently. */
  lemma ReadOfMoved(n: Node<Ref>, offset: nat, arrays: Arrays, arrays': Arrays)
    requires forall r :: r in RefsOf(n) ==> At(arrays', offset + r) == At(arrays, r)
    ensures Read(Moved(n, offset), arrays') == Read(n, arrays)
  {
    if n.properties.Some? {
      var own := n.properties.value;
      forall i | 0 <= i < |own|
        ensures ReadProperties(MovedProperties(own, offset), arrays')[i] == ReadProperties(own, arrays)[i]
      {
        if own[i].options.Some? {
          assert own[i].options.value in RefsOf(n);
        }
      }
      assert ReadProperties(MovedProperties(own, offset), arrays') == ReadProperties(own, arrays);
    }
  }
}
