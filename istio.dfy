/**
 * The Istio manifest builders: the `AuthorizationPolicy` that a policy draft
 * carries as YAML, and the `PeerAuthentication` that sets a workload's mutual
 * TLS mode. Each builds a JavaScript object and hands it to `convertToYAML`.
 */
module Istio {
  import opened Wrappers
  import opened Js
  import opened JsonValues
  import opened Types
  import opened Yaml

  const IstioSecurityApi := "security.istio.io/v1beta1"

  /** A list of strings as an array value. */
  function Strings(xs: seq<string>): (r: seq<Json>)
    ensures |r| == |xs| && forall i :: 0 <= i < |xs| ==> r[i] == Str(xs[i])
  {
    seq(|xs|, i requires 0 <= i < |xs| => Str(xs[i]))
  }

  /** The `source` or `operation` object of a rule: each named list becomes an array entry. */
  function ListObject(fields: seq<ListField>): (r: Json)
    ensures r.Obj? && |r.fields| == |fields|
    ensures forall i :: 0 <= i < |fields| ==> r.fields[i] == Field(fields[i].key, Arr(Strings(fields[i].values)))
  {
    Obj(seq(|fields|, i requires 0 <= i < |fields| => Field(fields[i].key, Arr(Strings(fields[i].values)))))
  }

  function OptionalObject(o: Option<seq<ListField>>): Json {
    if o.Some? then ListObject(o.value) else Undefined
  }

  function ConditionValue(c: Condition): Json {
    Obj([Field("key", Str(c.key)), Field("values", Arr(Strings(c.values)))])
  }

  /** `rule.when`, as given */
  function WhenValue(when: Option<seq<Condition>>): (r: Json)
    ensures when.None? ==> r == Undefined
    ensures when.Some? ==> r.Arr? && |r.items| == |when.value|
                           && forall i :: 0 <= i < |when.value| ==> r.items[i] == ConditionValue(when.value[i])
  {
    if when.None? then Undefined
    else Arr(seq(|when.value|, i requires 0 <= i < |when.value| => ConditionValue(when.value[i])))
  }

  /**
   * `{ from: rule.from ? [{ source }] : undefined, to: rule.to ? [{ operation }] : undefined, when }`:
   * `from` and `to` are present exactly when the rule has them, each wrapping
   * the given source or operation in a one-element list, and `when` is passed
   * through.
   */
  function RuleValue(rule: AuthorizationRule): (r: Json)
    ensures r.Obj? && Keys(r.fields) == ["from", "to", "when"]
    ensures Get(r, "from").Undefined? <==> rule.from.None?
    ensures rule.from.Some? ==> Get(r, "from") == Arr([Obj([Field("source", OptionalObject(rule.from.value.source))])])
    ensures Get(r, "to").Undefined? <==> rule.to.None?
    ensures rule.to.Some? ==> Get(r, "to") == Arr([Obj([Field("operation", OptionalObject(rule.to.value.operation))])])
    ensures Get(r, "when") == WhenValue(rule.when)
  {
    var r := Obj([
      Field("from", if rule.from.Some? then Arr([Obj([Field("source", OptionalObject(rule.from.value.source))])]) else Undefined),
      Field("to", if rule.to.Some? then Arr([Obj([Field("operation", OptionalObject(rule.to.value.operation))])]) else Undefined),
      Field("when", WhenValue(rule.when))]);
    GetFirst(r.fields, "to", 1);
    GetFirst(r.fields, "when", 2);
    r
  }

  /** `rules.map(...)` */
  function RuleValues(rules: seq<AuthorizationRule>): (r: seq<Json>)
    ensures |r| == |rules| && forall i :: 0 <= i < |rules| ==> r[i] == RuleValue(rules[i])
  {
    seq(|rules|, i requires 0 <= i < |rules| => RuleValue(rules[i]))
  }

  /**
   * `description || \`Authorization policy for ${serviceName}\``: a non-empty
   * description is used as given, an empty or absent one falls back to the
   * generated one, so the annotation is never empty.
   */
  function Description(serviceName: string, description: Option<string>): (r: string)
    ensures description.Some? && description.value != "" ==> r == description.value
    ensures description.None? || description.value == "" ==> r == "Authorization policy for " + serviceName
    ensures r != ""
  {
    if Truthy(description) then description.value else "Authorization policy for " + serviceName
  }

  /** `selector: { matchLabels: { app: serviceName } }` */
  function SelectorValue(serviceName: string): Json {
    Obj([Field("matchLabels", Obj([Field("app", Str(serviceName))]))])
  }

  function AnnotationsValue(serviceName: string, description: Option<string>, isoNow: string): Json {
    Obj([
      Field("description", Str(Description(serviceName, description))),
      Field("zentrion.io/generated", Str("true")),
      Field("zentrion.io/generated-at", Str(isoNow))])
  }

  /** The policy's name carries the clock reading, so that successive drafts get distinct names. */
  function PolicyName(serviceName: string, millis: nat): string {
    serviceName + "-authz-" + NatToString(millis)
  }

  function AuthorizationMetadata(serviceName: string, namespace: string, description: Option<string>,
                                 millis: nat, isoNow: string): Json {
    Obj([
      Field("name", Str(PolicyName(serviceName, millis))),
      Field("namespace", Str(namespace)),
      Field("annotations", AnnotationsValue(serviceName, description, isoNow))])
  }

  function AuthorizationSpec(serviceName: string, rules: seq<AuthorizationRule>): Json {
    Obj([
      Field("selector", SelectorValue(serviceName)),
      Field("action", Str("DENY")),
      Field("rules", Arr(RuleValues(rules)))])
  }

  /**
   * The object `buildAuthorizationPolicy` assembles; `millis` is `Date.now()`
   * and `isoNow` the ISO form of the same clock reading.
   */
  function AuthorizationPolicyManifest(serviceName: string, namespace: string, rules: seq<AuthorizationRule>,
                                       description: Option<string>, millis: nat, isoNow: string): Json {
    Obj([
      Field("apiVersion", Str(IstioSecurityApi)),
      Field("kind", Str("AuthorizationPolicy")),
      Field("metadata", AuthorizationMetadata(serviceName, namespace, description, millis, isoNow)),
      Field("spec", AuthorizationSpec(serviceName, rules))])
  }

  datatype MtlsMode = Strict | Permissive | Disable

  function ModeName(m: MtlsMode): string {
    match m
    case Strict => "STRICT"
    case Permissive => "PERMISSIVE"
    case Disable => "DISABLE"
  }

  function PeerMetadata(serviceName: string, namespace: string): Json {
    Obj([Field("name", Str(serviceName + "-peer-auth")), Field("namespace", Str(namespace))])
  }

  function PeerSpec(serviceName: string, mode: MtlsMode): Json {
    Obj([Field("selector", SelectorValue(serviceName)), Field("mtls", Obj([Field("mode", Str(ModeName(mode)))]))])
  }

  /** The object `buildPeerAuthentication` assembles. */
  function PeerAuthenticationManifest(serviceName: string, namespace: string, mode: MtlsMode): Json {
    Obj([
      Field("apiVersion", Str(IstioSecurityApi)),
      Field("kind", Str("PeerAuthentication")),
      Field("metadata", PeerMetadata(serviceName, namespace)),
      Field("spec", PeerSpec(serviceName, mode))])
  }

  // ---- every manifest can be emitted ----

  lemma StringsRenderable(xs: seq<string>)
    ensures Renderable(Arr(Strings(xs)))
  {
  }

  lemma ListObjectRenderable(fields: seq<ListField>)
    ensures Renderable(ListObject(fields))
  {
    var r := ListObject(fields);
    forall i | 0 <= i < |fields| ensures Renderable(r.fields[i].value) {
      StringsRenderable(fields[i].values);
    }
  }

  lemma RuleValueRenderable(rule: AuthorizationRule)
    ensures Renderable(RuleValue(rule))
  {
    if rule.from.Some? && rule.from.value.source.Some? {
      ListObjectRenderable(rule.from.value.source.value);
    }
    if rule.to.Some? && rule.to.value.operation.Some? {
      ListObjectRenderable(rule.to.value.operation.value);
    }
    if rule.when.Some? {
      var w := WhenValue(rule.when);
      forall i | 0 <= i < |w.items| ensures !w.items[i].Null? && Renderable(w.items[i]) {
        StringsRenderable(rule.when.value[i].values);
      }
    }
  }

  lemma RulesRenderable(rules: seq<AuthorizationRule>)
    ensures forall i :: 0 <= i < |rules| ==> !RuleValues(rules)[i].Null? && Renderable(RuleValues(rules)[i])
  {
    forall i | 0 <= i < |rules| ensures Renderable(RuleValues(rules)[i]) {
      RuleValueRenderable(rules[i]);
    }
  }

  lemma SelectorRenderable(serviceName: string)
    ensures Renderable(SelectorValue(serviceName))
  {
    assert Renderable(Obj([Field("app", Str(serviceName))]));
  }

  lemma AuthorizationPolicyRenderable(serviceName: string, namespace: string, rules: seq<AuthorizationRule>,
                                      description: Option<string>, millis: nat, isoNow: string)
    ensures Renderable(AuthorizationPolicyManifest(serviceName, namespace, rules, description, millis, isoNow))
  {
    RulesRenderable(rules);
    SelectorRenderable(serviceName);
    assert Renderable(AnnotationsValue(serviceName, description, isoNow));
    assert Renderable(AuthorizationMetadata(serviceName, namespace, description, millis, isoNow));
    assert Renderable(AuthorizationSpec(serviceName, rules));
  }

  lemma PeerAuthenticationRenderable(serviceName: string, namespace: string, mode: MtlsMode)
    ensures Renderable(PeerAuthenticationManifest(serviceName, namespace, mode))
  {
    SelectorRenderable(serviceName);
    assert Renderable(PeerMetadata(serviceName, namespace));
    assert Renderable(PeerSpec(serviceName, mode));
  }

  /**
   * `buildAuthorizationPolicy(serviceName, namespace, rules, description)`:
   * the whole text, grouped by top-level key.
   */
  function BuildAuthorizationPolicy(serviceName: string, namespace: string, rules: seq<AuthorizationRule>,
                                    description: Option<string>, millis: nat, isoNow: string): (r: string)
    ensures Renderable(AuthorizationSpec(serviceName, rules))
    ensures r == Line(0, "apiVersion", IstioSecurityApi) + Line(0, "kind", "AuthorizationPolicy")
               + (Open(0, "metadata") + Line(1, "name", PolicyName(serviceName, millis)) + Line(1, "namespace", namespace)
                  + (Open(1, "annotations") + Line(2, "description", Description(serviceName, description))
                     + Line(2, "zentrion.io/generated", "true") + Line(2, "zentrion.io/generated-at", isoNow)))
               + Entry("spec", AuthorizationSpec(serviceName, rules), 0)
  {
    AuthorizationPolicyRenderable(serviceName, namespace, rules, description, millis, isoNow);
    AuthorizationMetadataText(serviceName, namespace, description, millis, isoNow);
    AuthorizationSpecText(serviceName, rules);
    StringEntry("apiVersion", IstioSecurityApi, 0);
    StringEntry("kind", "AuthorizationPolicy", 0);
    FourEntries(Field("apiVersion", Str(IstioSecurityApi)), Field("kind", Str("AuthorizationPolicy")),
                Field("metadata", AuthorizationMetadata(serviceName, namespace, description, millis, isoNow)),
                Field("spec", AuthorizationSpec(serviceName, rules)), 0);
    Render(AuthorizationPolicyManifest(serviceName, namespace, rules, description, millis, isoNow), 0)
  }

  /**
   * `buildPeerAuthentication(serviceName, namespace, mtlsMode = 'STRICT')`:
   * the whole text, line by line (grouped by top-level key).
   */
  function BuildPeerAuthentication(serviceName: string, namespace: string, mode: MtlsMode := Strict): (r: string)
    ensures r == Line(0, "apiVersion", IstioSecurityApi) + Line(0, "kind", "PeerAuthentication")
               + (Open(0, "metadata") + Line(1, "name", serviceName + "-peer-auth") + Line(1, "namespace", namespace))
               + (Open(0, "spec") + Open(1, "selector") + Open(2, "matchLabels") + Line(3, "app", serviceName)
                  + Open(1, "mtls") + Line(2, "mode", ModeName(mode)))
  {
    PeerAuthenticationRenderable(serviceName, namespace, mode);
    PeerMetadataText(serviceName, namespace);
    PeerSpecText(serviceName, mode);
    StringEntry("apiVersion", IstioSecurityApi, 0);
    StringEntry("kind", "PeerAuthentication", 0);
    FourEntries(Field("apiVersion", Str(IstioSecurityApi)), Field("kind", Str("PeerAuthentication")),
                Field("metadata", PeerMetadata(serviceName, namespace)), Field("spec", PeerSpec(serviceName, mode)), 0);
    Render(PeerAuthenticationManifest(serviceName, namespace, mode), 0)
  }

  // ---- the emitted text ----

  /** `matchLabels: { app }` one level below `selector:` at level `n`. */
  lemma SelectorText(serviceName: string, n: nat)
    ensures Renderable(SelectorValue(serviceName))
    ensures Entry("selector", SelectorValue(serviceName), n)
         == Open(n, "selector") + Open(n + 1, "matchLabels") + Line(n + 2, "app", serviceName)
  {
    var app := Field("app", Str(serviceName));
    StringEntry("app", serviceName, n + 2);
    NestedOne("matchLabels", app, n + 1);
    NestedOne("selector", Field("matchLabels", Obj([app])), n);
    Assoc(Open(n, "selector"), Open(n + 1, "matchLabels"), Line(n + 2, "app", serviceName));
  }

  /** The `metadata` block of a PeerAuthentication. */
  lemma PeerMetadataText(serviceName: string, namespace: string)
    ensures Renderable(PeerMetadata(serviceName, namespace))
    ensures Entry("metadata", PeerMetadata(serviceName, namespace), 0)
         == Open(0, "metadata") + Line(1, "name", serviceName + "-peer-auth") + Line(1, "namespace", namespace)
  {
    StringEntry("name", serviceName + "-peer-auth", 1);
    StringEntry("namespace", namespace, 1);
    NestedTwo("metadata", Field("name", Str(serviceName + "-peer-auth")), Field("namespace", Str(namespace)), 0);
  }

  /** The `spec` block of a PeerAuthentication. */
  lemma PeerSpecText(serviceName: string, mode: MtlsMode)
    ensures Renderable(PeerSpec(serviceName, mode))
    ensures Entry("spec", PeerSpec(serviceName, mode), 0)
         == Open(0, "spec") + Open(1, "selector") + Open(2, "matchLabels") + Line(3, "app", serviceName)
            + Open(1, "mtls") + Line(2, "mode", ModeName(mode))
  {
    var modeField := Field("mode", Str(ModeName(mode)));
    SelectorText(serviceName, 1);
    StringEntry("mode", ModeName(mode), 2);
    NestedOne("mtls", modeField, 1);
    NestedTwo("spec", Field("selector", SelectorValue(serviceName)), Field("mtls", Obj([modeField])), 0);
    var sel := Open(1, "selector") + Open(2, "matchLabels") + Line(3, "app", serviceName);
    Assoc(Open(0, "spec") + sel, Open(1, "mtls"), Line(2, "mode", ModeName(mode)));
    Assoc(Open(0, "spec"), Open(1, "selector") + Open(2, "matchLabels"), Line(3, "app", serviceName));
    Assoc(Open(0, "spec"), Open(1, "selector"), Open(2, "matchLabels"));
  }

  /** `mtlsMode` defaults to `STRICT`. */
  lemma PeerAuthenticationDefaultsToStrict(serviceName: string, namespace: string)
    ensures BuildPeerAuthentication(serviceName, namespace) == BuildPeerAuthentication(serviceName, namespace, Strict)
    ensures Line(2, "mode", ModeName(Strict)) == "    mode: STRICT\n"
  {
  }

  /** The generated-by annotations, one line each under `annotations`. */
  lemma AnnotationsText(serviceName: string, description: Option<string>, isoNow: string)
    ensures Renderable(AnnotationsValue(serviceName, description, isoNow))
    ensures Entry("annotations", AnnotationsValue(serviceName, description, isoNow), 1)
         == Open(1, "annotations") + Line(2, "description", Description(serviceName, description))
            + Line(2, "zentrion.io/generated", "true") + Line(2, "zentrion.io/generated-at", isoNow)
  {
    var d := Description(serviceName, description);
    StringEntry("description", d, 2);
    StringEntry("zentrion.io/generated", "true", 2);
    StringEntry("zentrion.io/generated-at", isoNow, 2);
    NestedThree("annotations", Field("description", Str(d)), Field("zentrion.io/generated", Str("true")),
                Field("zentrion.io/generated-at", Str(isoNow)), 1);
  }

  /** The `metadata` block of an AuthorizationPolicy, with its annotations. */
  lemma AuthorizationMetadataText(serviceName: string, namespace: string, description: Option<string>,
                                  millis: nat, isoNow: string)
    ensures Renderable(AuthorizationMetadata(serviceName, namespace, description, millis, isoNow))
    ensures Entry("metadata", AuthorizationMetadata(serviceName, namespace, description, millis, isoNow), 0)
         == Open(0, "metadata") + Line(1, "name", PolicyName(serviceName, millis)) + Line(1, "namespace", namespace)
          + (Open(1, "annotations") + Line(2, "description", Description(serviceName, description))
             + Line(2, "zentrion.io/generated", "true") + Line(2, "zentrion.io/generated-at", isoNow))
  {
    AnnotationsText(serviceName, description, isoNow);
    StringEntry("name", PolicyName(serviceName, millis), 1);
    StringEntry("namespace", namespace, 1);
    NestedThree("metadata", Field("name", Str(PolicyName(serviceName, millis))), Field("namespace", Str(namespace)),
                Field("annotations", AnnotationsValue(serviceName, description, isoNow)), 0);
  }

  /** The `spec` block of an AuthorizationPolicy: the selector, `action: DENY`, then the rules. */
  lemma AuthorizationSpecText(serviceName: string, rules: seq<AuthorizationRule>)
    ensures Renderable(AuthorizationSpec(serviceName, rules))
    ensures Renderable(Arr(RuleValues(rules)))
    ensures Entry("spec", AuthorizationSpec(serviceName, rules), 0)
         == Open(0, "spec") + (Open(1, "selector") + Open(2, "matchLabels") + Line(3, "app", serviceName))
            + Line(1, "action", "DENY") + Entry("rules", Arr(RuleValues(rules)), 1)
  {
    RulesRenderable(rules);
    SelectorText(serviceName, 1);
    StringEntry("action", "DENY", 1);
    NestedThree("spec", Field("selector", SelectorValue(serviceName)), Field("action", Str("DENY")),
                Field("rules", Arr(RuleValues(rules))), 0);
  }

  /** The rules are written inline as `[]` when there are none, and otherwise as one `- ` item per rule. */
  lemma RulesText(rules: seq<AuthorizationRule>)
    ensures Renderable(Arr(RuleValues(rules)))
    ensures forall i :: 0 <= i < |rules| ==> !RuleValues(rules)[i].Null? && Renderable(RuleValues(rules)[i])
    ensures rules == [] ==> Entry("rules", Arr(RuleValues(rules)), 1) == Indent(1) + "rules: []\n"
    ensures rules != [] ==> Entry("rules", Arr(RuleValues(rules)), 1) == Open(1, "rules") + Items(RuleValues(rules), 1)
  {
    RulesRenderable(rules);
    if rules == [] {
      assert RuleValues(rules) == [];
      EmptyArrayEntry("rules", 1);
    } else {
      ArrayEntry("rules", RuleValues(rules), 1);
    }
  }

  // ---- what the manifests say ----

  /** The policy denies, selects the service's pods, and carries the rules in order. */
  lemma AuthorizationPolicyContents(serviceName: string, namespace: string, rules: seq<AuthorizationRule>,
                                    description: Option<string>, millis: nat, isoNow: string)
    ensures var m := AuthorizationPolicyManifest(serviceName, namespace, rules, description, millis, isoNow);
      && Path(m, ["kind"]) == Str("AuthorizationPolicy")
      && Path(m, ["metadata", "name"]) == Str(PolicyName(serviceName, millis))
      && Path(m, ["metadata", "namespace"]) == Str(namespace)
      && Path(m, ["metadata", "annotations", "description"]) == Str(Description(serviceName, description))
      && Path(m, ["spec", "selector", "matchLabels", "app"]) == Str(serviceName)
      && Path(m, ["spec", "action"]) == Str("DENY")
      && Path(m, ["spec", "rules"]) == Arr(RuleValues(rules))
  {
    var m := AuthorizationPolicyManifest(serviceName, namespace, rules, description, millis, isoNow);
    var meta := AuthorizationMetadata(serviceName, namespace, description, millis, isoNow);
    var spec := AuthorizationSpec(serviceName, rules);
    GetFirst(m.fields, "kind", 1);
    GetFirst(m.fields, "metadata", 2);
    GetFirst(m.fields, "spec", 3);
    GetFirst(meta.fields, "namespace", 1);
    GetFirst(meta.fields, "annotations", 2);
    GetFirst(spec.fields, "action", 1);
    GetFirst(spec.fields, "rules", 2);
    PathOfTwo(m, "kind", "");
    PathOfTwo(m, "metadata", "name");
    PathOfTwo(m, "metadata", "namespace");
    PathOfTwo(m, "spec", "action");
    PathOfTwo(m, "spec", "rules");
    PathOfFour(m, "metadata", "annotations", "description", "");
    PathOfFour(m, "spec", "selector", "matchLabels", "app");
  }

  /** A list field of a rule's source or operation keeps its name and its values. */
  lemma ListObjectContents(fields: seq<ListField>, i: nat)
    requires i < |fields| && forall j :: 0 <= j < i ==> fields[j].key != fields[i].key
    ensures Get(ListObject(fields), fields[i].key) == Arr(Strings(fields[i].values))
  {
    var r := ListObject(fields);
    GetFirst(r.fields, fields[i].key, i);
  }

  /** Two clock readings that differ give two policies of different names. */
  lemma PolicyNamesDistinct(serviceName: string, m: nat, n: nat)
    requires m != n
    ensures PolicyName(serviceName, m) != PolicyName(serviceName, n)
  {
    var p := serviceName + "-authz-";
    if PolicyName(serviceName, m) == PolicyName(serviceName, n) {
      assert (p + NatToString(m))[|p|..] == NatToString(m);
      assert (p + NatToString(n))[|p|..] == NatToString(n);
      NatToStringInjective(m, n);
    }
  }

  /** The PeerAuthentication selects the service's pods and sets the requested mode. */
  lemma PeerAuthenticationContents(serviceName: string, namespace: string, mode: MtlsMode)
    ensures var m := PeerAuthenticationManifest(serviceName, namespace, mode);
      && Path(m, ["kind"]) == Str("PeerAuthentication")
      && Path(m, ["metadata", "name"]) == Str(serviceName + "-peer-auth")
      && Path(m, ["metadata", "namespace"]) == Str(namespace)
      && Path(m, ["spec", "selector", "matchLabels", "app"]) == Str(serviceName)
      && Path(m, ["spec", "mtls", "mode"]) == Str(ModeName(mode))
  {
    var m := PeerAuthenticationManifest(serviceName, namespace, mode);
    GetFirst(m.fields, "kind", 1);
    GetFirst(m.fields, "metadata", 2);
    GetFirst(m.fields, "spec", 3);
    GetFirst(PeerMetadata(serviceName, namespace).fields, "namespace", 1);
    GetFirst(PeerSpec(serviceName, mode).fields, "mtls", 1);
    PathOfTwo(m, "kind", "");
    PathOfTwo(m, "metadata", "name");
    PathOfTwo(m, "metadata", "namespace");
    PathOfFour(m, "spec", "mtls", "mode", "");
    PathOfFour(m, "spec", "selector", "matchLabels", "app");
  }

  /** The three modes are written as three different words. */
  lemma ModeNamesDistinct(a: MtlsMode, b: MtlsMode)
    ensures ModeName(a) == ModeName(b) <==> a == b
  {
  }
}
