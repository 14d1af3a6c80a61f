/** The template assembler of scripts/generate-template.py: it reads the
    recipe, looks up one component document per reference of the recipe, and
    assembles a CloudFormation template with one component resource per
    distinct resource key, five fixed resources, the recipe's component list
    and three outputs.

    The component and recipe files are a store keyed by the path the source
    builds; a missing path is a failure that aborts the run. Serialising a
    component document into its resource's `Data` field is done by a library
    the model cannot see, so it is the parameter `dump`. */
module Generate {
  import opened Names
  import opened CloudFormation

  /** One entry of a recipe's `components` list. */
  datatype ComponentRef = ComponentRef(name: string, version: string, parameters: Option<map<string, string>>)

  /** A recipe; `components` is `None` when the key is absent. */
  datatype Recipe = Recipe(
    name: string,
    description: string,
    version: string,
    parentImage: string,
    components: Option<seq<ComponentRef>>)

  /** A component file's contents: the two fields the assembler reads and the
      rest, which it only passes on to `dump`. */
  datatype ComponentDocument = ComponentDocument(name: string, description: string, extra: map<string, string>)

  /** The files the generator can read, by path. */
  datatype Files = Files(recipes: map<string, Recipe>, components: map<string, ComponentDocument>)

  datatype Error = RecipeFileNotFound(path: string) | ComponentFileNotFound(path: string)

  datatype Result<+T> = Success(value: T) | Failure(error: Error)

  const RECIPE_FILE := "ubuntu-development.yml"
  const PLATFORM := "Linux"
  const FORMAT_VERSION := "2010-09-09"
  const TEMPLATE_DESCRIPTION := "AWS Image Builder with external components and recipes"
  const VPC_PARAMETER := "VpcId"
  const SUBNET_PARAMETER := "SubnetId"
  const INSTANCE_PROFILE_PARAMETER := "InstanceProfileArn"
  const PARAMETER_NAMES: set<string> := {VPC_PARAMETER, SUBNET_PARAMETER, INSTANCE_PROFILE_PARAMETER}
  const BUILD_DATE_SUFFIX := "-{{ imagebuilder:buildDate }}"

  // ---------------------------------------------------------------------
  // Loading

  function RecipePath(file: string): string {
    "recipes/" + file
  }

  function ComponentPath(name: string, version: string): string {
    "components/" + name + "/" + version + ".yml"
  }

  /** `load_recipe`: the recipe stored under `recipes/<file>`, or a failure
      naming that path. */
  function LoadRecipe(files: Files, file: string): (r: Result<Recipe>)
    ensures r.Success? <==> RecipePath(file) in files.recipes
    ensures r.Success? ==> r.value == files.recipes[RecipePath(file)]
    ensures r.Failure? ==> r.error == RecipeFileNotFound(RecipePath(file))
  {
    var path := RecipePath(file);
    if path in files.recipes then Success(files.recipes[path]) else Failure(RecipeFileNotFound(path))
  }

  /** `load_component`: the document stored under
      `components/<name>/<version>.yml`, or a failure naming that path. */
  function LoadComponent(files: Files, name: string, version: string): (r: Result<ComponentDocument>)
    ensures r.Success? <==> ComponentPath(name, version) in files.components
    ensures r.Success? ==> r.value == files.components[ComponentPath(name, version)]
    ensures r.Failure? ==> r.error == ComponentFileNotFound(ComponentPath(name, version))
  {
    var path := ComponentPath(name, version);
    if path in files.components then Success(files.components[path]) else Failure(ComponentFileNotFound(path))
  }

  /** The path a reference's component is looked up under: the normalised
      name and the version unchanged. */
  function LookupPath(ref: ComponentRef): string {
    ComponentPath(NormalizeName(ref.name), ref.version)
  }

  /** "Nginx Setup" at version "2.1" is looked up under
      `components/nginx-setup/2.1.yml`. */
  lemma NginxSetupLookupPath(ref: ComponentRef)
    requires ref.name == "Nginx Setup" && ref.version == "2.1"
    ensures LookupPath(ref) == "components/nginx-setup/2.1.yml"
  {
    NormalizeNginxSetup(ref.name);
  }

  /** The version can be read back from the lookup path, between the
      normalised name's directory and the `.yml` extension. */
  lemma LookupPathVersion(ref: ComponentRef)
    ensures var dir := "components/" + NormalizeName(ref.name) + "/";
            var path := LookupPath(ref);
            && |path| == |dir| + |ref.version| + 4
            && path[..|dir|] == dir
            && path[|dir|..|dir| + |ref.version|] == ref.version
            && path[|dir| + |ref.version|..] == ".yml"
  {
    var dir := "components/" + NormalizeName(ref.name) + "/";
    assert LookupPath(ref) == dir + ref.version + ".yml";
  }

  /** Two versions of the same component are looked up under different
      paths. */
  lemma LookupPathSeparatesVersions(a: ComponentRef, b: ComponentRef)
    requires a.name == b.name && a.version != b.version
    ensures LookupPath(a) != LookupPath(b)
  {
    LookupPathVersion(a);
    LookupPathVersion(b);
  }

  predicate Present(ref: ComponentRef, files: Files) {
    LookupPath(ref) in files.components
  }

  predicate AllPresent(refs: seq<ComponentRef>, files: Files) {
    forall i :: 0 <= i < |refs| ==> Present(refs[i], files)
  }

  /** The index of the first reference whose component file is missing. */
  function FirstMissing(refs: seq<ComponentRef>, files: Files): (r: Option<nat>)
    ensures r.None? <==> AllPresent(refs, files)
    ensures r.Some? ==> r.value < |refs| && !Present(refs[r.value], files) && AllPresent(refs[..r.value], files)
  {
    if refs == [] then None
    else if !Present(refs[0], files) then Some(0)
    else match FirstMissing(refs[1..], files)
      case None => None
      case Some(i) => Some(i + 1)
  }

  // ---------------------------------------------------------------------
  // The pieces of the template

  /** `recipe.get("components", [])`. */
  function References(recipe: Recipe): seq<ComponentRef> {
    match recipe.components
    case None => []
    case Some(refs) => refs
  }

  /** The test `if component_ref.get("parameters")`: present and non-empty. */
  predicate HasParameters(ref: ComponentRef) {
    ref.parameters.Some? && |ref.parameters.value| > 0
  }

  function ComponentResource(ref: ComponentRef, doc: ComponentDocument, dump: ComponentDocument -> string): Resource {
    Component(doc.name, doc.description, PLATFORM, ref.version, dump(doc))
  }

  /** The component resources after the first loop: each reference in order
      writes its resource under its key, replacing whatever was there. */
  function ComponentEntries(refs: seq<ComponentRef>, files: Files, dump: ComponentDocument -> string): map<string, Resource>
    requires AllPresent(refs, files)
    decreases |refs|
  {
    if refs == [] then map[]
    else
      var last := refs[|refs| - 1];
      ComponentEntries(refs[..|refs| - 1], files, dump)
        [ResourceKey(last.name) := ComponentResource(last, files.components[LookupPath(last)], dump)]
  }

  /** The resource keys the references derive. */
  function ComponentKeys(refs: seq<ComponentRef>): set<string> {
    set ref | ref in refs :: ResourceKey(ref.name)
  }

  /** One entry of the recipe's `Components` list. */
  function RecipeEntry(ref: ComponentRef): RecipeComponent {
    RecipeComponent(Ref(ResourceKey(ref.name)), if HasParameters(ref) then ref.parameters else None)
  }

  function RecipeEntries(refs: seq<ComponentRef>): seq<RecipeComponent> {
    seq(|refs|, i requires 0 <= i < |refs| => RecipeEntry(refs[i]))
  }

  function TemplateParameters(): map<string, Parameter> {
    map[
      VPC_PARAMETER := Parameter("AWS::EC2::VPC::Id", "VPC ID for Image Builder"),
      SUBNET_PARAMETER := Parameter("AWS::EC2::Subnet::Id", "Subnet ID for Image Builder"),
      INSTANCE_PROFILE_PARAMETER := Parameter("String", "Instance profile ARN for Image Builder")
    ]
  }

  function RecipeResource(recipe: Recipe, components: seq<RecipeComponent>): Resource {
    ImageRecipe(recipe.name, recipe.description, recipe.version, recipe.parentImage, components)
  }

  function InfrastructureResource(recipe: Recipe): Resource {
    InfrastructureConfiguration(
      recipe.name + "Infrastructure",
      "Infrastructure configuration for " + recipe.name,
      Ref(INSTANCE_PROFILE_PARAMETER),
      Ref(SUBNET_PARAMETER),
      [Ref(SECURITY_GROUP_KEY)],
      ["t3.medium"],
      true)
  }

  function SecurityGroupResource(): Resource {
    SecurityGroup("Security group for Image Builder", Ref(VPC_PARAMETER), [EgressRule("-1", "0.0.0.0/0")])
  }

  function DistributionResource(recipe: Recipe): Resource {
    DistributionConfiguration(
      recipe.name + "Distribution",
      "Distribution configuration for " + recipe.name,
      [Distribution("ap-northeast-1",
                    AmiDistribution(recipe.name + BUILD_DATE_SUFFIX, "AMI created by " + recipe.name))])
  }

  function PipelineResource(recipe: Recipe): Resource {
    ImagePipeline(
      recipe.name + "Pipeline",
      "Image pipeline for " + recipe.name,
      Ref(IMAGE_RECIPE_KEY),
      Ref(INFRASTRUCTURE_KEY),
      Ref(DISTRIBUTION_KEY),
      "ENABLED")
  }

  function TemplateOutputs(): map<string, Output> {
    map[
      "ImageRecipeArn" := Output("ARN of the Image Recipe", Ref(IMAGE_RECIPE_KEY)),
      "ImagePipelineArn" := Output("ARN of the Image Pipeline", Ref(PIPELINE_KEY)),
      "InfrastructureConfigurationArn" := Output("ARN of the Infrastructure Configuration", Ref(INFRASTRUCTURE_KEY))
    ]
  }

  /** The five fixed resources written over the component resources, in the
      order the source assigns them. */
  function WithFixedResources(entries: map<string, Resource>, recipe: Recipe, components: seq<RecipeComponent>): map<string, Resource> {
    entries
      [IMAGE_RECIPE_KEY := RecipeResource(recipe, components)]
      [INFRASTRUCTURE_KEY := InfrastructureResource(recipe)]
      [SECURITY_GROUP_KEY := SecurityGroupResource()]
      [DISTRIBUTION_KEY := DistributionResource(recipe)]
      [PIPELINE_KEY := PipelineResource(recipe)]
  }

  function BuildTemplate(recipe: Recipe, files: Files, dump: ComponentDocument -> string): Template
    requires AllPresent(References(recipe), files)
  {
    var refs := References(recipe);
    Template(
      FORMAT_VERSION,
      TEMPLATE_DESCRIPTION,
      TemplateParameters(),
      WithFixedResources(ComponentEntries(refs, files, dump), recipe, RecipeEntries(refs)),
      TemplateOutputs())
  }

  /** What `generate_cloudformation_template` returns or raises. */
  function Assemble(files: Files, dump: ComponentDocument -> string): Result<Template> {
    match LoadRecipe(files, RECIPE_FILE)
    case Failure(e) => Failure(e)
    case Success(recipe) =>
      var refs := References(recipe);
      match FirstMissing(refs, files)
      case Some(i) => Failure(ComponentFileNotFound(LookupPath(refs[i])))
      case None => Success(BuildTemplate(recipe, files, dump))
  }

  // ---------------------------------------------------------------------
  // The assembler

  /** The second loop of `generate_cloudformation_template`: the recipe's
      `Components` list, one entry per reference in order, with the
      reference's parameters copied when present and non-empty. */
  method RecipeComponentList(refs: seq<ComponentRef>) returns (components: seq<RecipeComponent>)
    ensures components == RecipeEntries(refs)
  {
    components := [];
    var i := 0;
    while i < |refs|
      invariant 0 <= i <= |refs|
      invariant |components| == i
      invariant forall j :: 0 <= j < i ==> components[j] == RecipeEntry(refs[j])
    {
      var ref := refs[i];
      var entry := RecipeComponent(Ref(ResourceKey(ref.name)), None);
      if ref.parameters.Some? && |ref.parameters.value| > 0 {
        entry := entry.(parameters := ref.parameters);
      }
      components := components + [entry];
      i := i + 1;
    }
  }

  /** `generate_cloudformation_template`: load the recipe, add one component
      resource per reference, build the recipe's component list, add the
      fixed resources and the outputs. */
  method GenerateTemplate(files: Files, dump: ComponentDocument -> string) returns (r: Result<Template>)
    ensures r == Assemble(files, dump)
  {
    var loaded := LoadRecipe(files, RECIPE_FILE);
    if loaded.Failure? {
      MissingRecipeFails(files, dump);
      return Failure(loaded.error);
    }
    var recipe := loaded.value;
    var refs := References(recipe);

    // template["Resources"]
    var resources: map<string, Resource> := map[];
    var i := 0;
    while i < |refs|
      invariant 0 <= i <= |refs|
      invariant AllPresent(refs[..i], files)
      invariant resources == ComponentEntries(refs[..i], files, dump)
    {
      var ref := refs[i];
      var component := LoadComponent(files, NormalizeName(ref.name), ref.version);
      if component.Failure? {
        MissingComponentAborts(files, dump, i);
        return Failure(component.error);
      }
      ComponentEntriesStep(refs, files, dump, i);
      var key := ResourceKey(ref.name);
      resources := resources[key := ComponentResource(ref, component.value, dump)];
      i := i + 1;
    }
    assert refs[..i] == refs;
    ghost var entries := resources;

    var recipeComponents := RecipeComponentList(refs);

    resources := resources[IMAGE_RECIPE_KEY := RecipeResource(recipe, recipeComponents)];
    resources := resources[INFRASTRUCTURE_KEY := InfrastructureResource(recipe)];
    resources := resources[SECURITY_GROUP_KEY := SecurityGroupResource()];
    resources := resources[DISTRIBUTION_KEY := DistributionResource(recipe)];
    resources := resources[PIPELINE_KEY := PipelineResource(recipe)];
    var outputs := TemplateOutputs();
    AssembleBuilds(files, dump);
    r := Success(Template(FORMAT_VERSION, TEMPLATE_DESCRIPTION, TemplateParameters(), resources, outputs));
  }

  // ---------------------------------------------------------------------
  // Properties

  /** A reference that is missing while every earlier one is present is the
      first missing one. */
  lemma FirstMissingIs(refs: seq<ComponentRef>, files: Files, i: nat)
    requires i < |refs| && !Present(refs[i], files) && AllPresent(refs[..i], files)
    ensures FirstMissing(refs, files) == Some(i)
  {
    var m := FirstMissing(refs, files);
    assert !AllPresent(refs, files);
    var j := m.value;
    forall k | 0 <= k < i ensures Present(refs[k], files) {
      assert refs[..i][k] == refs[k];
    }
    forall k | 0 <= k < j ensures Present(refs[k], files) {
      assert refs[..j][k] == refs[k];
    }
  }

  /** One more present reference extends the component resources by its
      own entry, written over any entry under the same key. */
  lemma ComponentEntriesStep(refs: seq<ComponentRef>, files: Files, dump: ComponentDocument -> string, i: nat)
    requires i < |refs| && AllPresent(refs[..i], files)
    requires LoadComponent(files, NormalizeName(refs[i].name), refs[i].version).Success?
    ensures AllPresent(refs[..i + 1], files)
    ensures ComponentEntries(refs[..i + 1], files, dump)
         == ComponentEntries(refs[..i], files, dump)[ResourceKey(refs[i].name) :=
              ComponentResource(refs[i], LoadComponent(files, NormalizeName(refs[i].name), refs[i].version).value, dump)]
  {
    assert Present(refs[i], files);
    assert refs[..i + 1] == refs[..i] + [refs[i]];
  }

  /** The component resources are keyed by exactly the keys the references
      derive. */
  lemma {:induction false} ComponentEntriesKeys(refs: seq<ComponentRef>, files: Files, dump: ComponentDocument -> string)
    requires AllPresent(refs, files)
    ensures ComponentEntries(refs, files, dump).Keys == ComponentKeys(refs)
  {
    if refs != [] {
      var n := |refs| - 1;
      ComponentEntriesKeys(refs[..n], files, dump);
      assert refs == refs[..n] + [refs[n]];
      assert ComponentKeys(refs) == ComponentKeys(refs[..n]) + {ResourceKey(refs[n].name)};
    }
  }

  /** Every component entry is a component resource, so it holds no `Ref`. */
  lemma {:induction false} ComponentEntriesAreComponents(refs: seq<ComponentRef>, files: Files, dump: ComponentDocument -> string)
    requires AllPresent(refs, files)
    ensures forall k | k in ComponentEntries(refs, files, dump) ::
              ComponentEntries(refs, files, dump)[k].Component? && ComponentEntries(refs, files, dump)[k].Refs() == {}
  {
    if refs != [] {
      ComponentEntriesAreComponents(refs[..|refs| - 1], files, dump);
    }
  }

  /** The entry under a reference's key is that reference's resource when no
      later reference derives the same key: the last writer wins. */
  lemma {:induction false} ComponentEntryOfLast(refs: seq<ComponentRef>, files: Files, dump: ComponentDocument -> string, j: nat)
    requires AllPresent(refs, files)
    requires j < |refs|
    requires forall k :: j < k < |refs| ==> ResourceKey(refs[k].name) != ResourceKey(refs[j].name)
    ensures ResourceKey(refs[j].name) in ComponentEntries(refs, files, dump)
    ensures ComponentEntries(refs, files, dump)[ResourceKey(refs[j].name)]
         == ComponentResource(refs[j], files.components[LookupPath(refs[j])], dump)
  {
    var n := |refs| - 1;
    if j < n {
      ComponentEntryOfLast(refs[..n], files, dump, j);
    }
  }

  /** A list of strings has at most as many distinct elements as entries:
      strictly fewer when one of them repeats, and exactly as many when none
      does. */
  lemma {:induction false} DistinctCount(keys: seq<string>)
    ensures |set k | k in keys| <= |keys|
    ensures (exists i, j :: 0 <= i < j < |keys| && keys[i] == keys[j]) ==> |set k | k in keys| < |keys|
    ensures (forall i, j :: 0 <= i < j < |keys| ==> keys[i] != keys[j]) ==> |set k | k in keys| == |keys|
  {
    if keys != [] {
      var n := |keys| - 1;
      var front := keys[..n];
      DistinctCount(front);
      assert keys == front + [keys[n]];
      assert (set k | k in keys) == (set k | k in front) + {keys[n]};
      if exists i, j :: 0 <= i < j < |keys| && keys[i] == keys[j] {
        var i, j :| 0 <= i < j < |keys| && keys[i] == keys[j];
        if j < n {
          assert front[i] == front[j];
        } else {
          assert front[i] in front;
          assert (set k | k in keys) == (set k | k in front);
        }
      } else {
        assert keys[n] !in (set k | k in front) by {
          forall i | 0 <= i < n ensures front[i] != keys[n] {
            assert keys[i] != keys[n];
          }
        }
      }
    }
  }

  /** There are never more component keys than references: strictly fewer
      when two references derive the same key, and exactly as many when no
      two do. */
  lemma ComponentKeysCount(refs: seq<ComponentRef>)
    ensures |ComponentKeys(refs)| <= |refs|
    ensures (exists i, j :: 0 <= i < j < |refs| && ResourceKey(refs[i].name) == ResourceKey(refs[j].name))
            ==> |ComponentKeys(refs)| < |refs|
    ensures (forall i, j :: 0 <= i < j < |refs| ==> ResourceKey(refs[i].name) != ResourceKey(refs[j].name))
            ==> |ComponentKeys(refs)| == |refs|
  {
    var keys := seq(|refs|, i requires 0 <= i < |refs| => ResourceKey(refs[i].name));
    assert ComponentKeys(refs) == set k | k in keys by {
      forall ref | ref in refs ensures ResourceKey(ref.name) in keys {
        var i :| 0 <= i < |refs| && refs[i] == ref;
        assert keys[i] == ResourceKey(ref.name);
      }
    }
    DistinctCount(keys);
    if exists i, j :: 0 <= i < j < |refs| && ResourceKey(refs[i].name) == ResourceKey(refs[j].name) {
      var i, j :| 0 <= i < j < |refs| && ResourceKey(refs[i].name) == ResourceKey(refs[j].name);
      assert keys[i] == keys[j];
    } else {
      assert forall i, j :: 0 <= i < j < |keys| ==> keys[i] != keys[j];
    }
  }

  /** A missing recipe file aborts the run before any component is read,
      naming the recipe's path. */
  lemma MissingRecipeFails(files: Files, dump: ComponentDocument -> string)
    requires RecipePath(RECIPE_FILE) !in files.recipes
    ensures Assemble(files, dump) == Failure(RecipeFileNotFound("recipes/ubuntu-development.yml"))
  {
    assert Assemble(files, dump) == Failure(RecipeFileNotFound(RecipePath(RECIPE_FILE)));
    RecipePathLiteral();
  }

  /** The recipe the generator reads lives at "recipes/ubuntu-development.yml". */
  lemma RecipePathLiteral()
    ensures RecipePath(RECIPE_FILE) == "recipes/ubuntu-development.yml"
  {
  }

  /** The run succeeds exactly when the recipe file and every component file
      it references are present. */
  lemma AssembleSucceeds(files: Files, dump: ComponentDocument -> string)
    ensures Assemble(files, dump).Success? <==>
              RecipePath(RECIPE_FILE) in files.recipes &&
              AllPresent(References(files.recipes[RecipePath(RECIPE_FILE)]), files)
  {
    if RecipePath(RECIPE_FILE) in files.recipes {
      var refs := References(files.recipes[RecipePath(RECIPE_FILE)]);
      assert FirstMissing(refs, files).None? <==> AllPresent(refs, files);
    }
  }

  /** When the recipe and every component file it references are present,
      the run returns the built template. */
  lemma AssembleBuilds(files: Files, dump: ComponentDocument -> string)
    requires RecipePath(RECIPE_FILE) in files.recipes
    requires AllPresent(References(files.recipes[RecipePath(RECIPE_FILE)]), files)
    ensures Assemble(files, dump) == Success(BuildTemplate(files.recipes[RecipePath(RECIPE_FILE)], files, dump))
  {
  }

  /** A missing component file aborts the run with the first missing path:
      the reference's name normalised, its version unchanged. */
  lemma MissingComponentAborts(files: Files, dump: ComponentDocument -> string, i: nat)
    requires RecipePath(RECIPE_FILE) in files.recipes
    requires var refs := References(files.recipes[RecipePath(RECIPE_FILE)]);
             i < |refs| && !Present(refs[i], files) && AllPresent(refs[..i], files)
    ensures var ref := References(files.recipes[RecipePath(RECIPE_FILE)])[i];
            Assemble(files, dump) == Failure(ComponentFileNotFound(ComponentPath(NormalizeName(ref.name), ref.version)))
  {
    FirstMissingIs(References(files.recipes[RecipePath(RECIPE_FILE)]), files, i);
  }

  /** The template a successful run returns is the one built from the
      stored recipe, all of whose components are present. */
  lemma AssembledFrom(files: Files, dump: ComponentDocument -> string, t: Template)
    requires Assemble(files, dump) == Success(t)
    ensures RecipePath(RECIPE_FILE) in files.recipes
    ensures AllPresent(References(files.recipes[RecipePath(RECIPE_FILE)]), files)
    ensures t == BuildTemplate(files.recipes[RecipePath(RECIPE_FILE)], files, dump)
  {
  }

  /** The five fixed resources are added under their own keys and leave
      every other entry as it was. */
  lemma FixedResourcesAt(entries: map<string, Resource>, recipe: Recipe, components: seq<RecipeComponent>)
    ensures var m := WithFixedResources(entries, recipe, components);
            && m.Keys == entries.Keys + FIXED_KEYS
            && m[IMAGE_RECIPE_KEY] == RecipeResource(recipe, components)
            && m[INFRASTRUCTURE_KEY] == InfrastructureResource(recipe)
            && m[SECURITY_GROUP_KEY] == SecurityGroupResource()
            && m[DISTRIBUTION_KEY] == DistributionResource(recipe)
            && m[PIPELINE_KEY] == PipelineResource(recipe)
            && forall k | k in entries && k !in FIXED_KEYS :: m[k] == entries[k]
  {
    assert |IMAGE_RECIPE_KEY| == 11 && |INFRASTRUCTURE_KEY| == 27 && |PIPELINE_KEY| == 13;
    assert |SECURITY_GROUP_KEY| == 25 && |DISTRIBUTION_KEY| == 25;
    assert SECURITY_GROUP_KEY[0] != DISTRIBUTION_KEY[0];
  }

  /** No derived component key is a fixed key. */
  lemma ComponentKeysNotFixed(refs: seq<ComponentRef>)
    ensures FIXED_KEYS !! ComponentKeys(refs)
  {
    forall k | k in ComponentKeys(refs) ensures k !in FIXED_KEYS {
      var ref :| ref in refs && k == ResourceKey(ref.name);
      ResourceKeyNotFixed(ref.name);
    }
  }

  /** The resources of a built template: the fixed keys and the component
      keys, disjoint. */
  lemma BuiltResourceKeys(recipe: Recipe, files: Files, dump: ComponentDocument -> string)
    requires AllPresent(References(recipe), files)
    ensures var refs := References(recipe);
            var resources := BuildTemplate(recipe, files, dump).resources;
            && resources.Keys == FIXED_KEYS + ComponentKeys(refs)
            && |resources| == 5 + |ComponentKeys(refs)|
  {
    var refs := References(recipe);
    var resources := BuildTemplate(recipe, files, dump).resources;
    ComponentEntriesKeys(refs, files, dump);
    FixedResourcesAt(ComponentEntries(refs, files, dump), recipe, RecipeEntries(refs));
    ComponentKeysNotFixed(refs);
    FixedKeysCount();
    assert |resources| == |resources.Keys|;
  }

  /** `Resources` holds exactly the five fixed keys and one key per distinct
      derived component key; the two groups never overlap. */
  lemma ResourceKeysExact(files: Files, dump: ComponentDocument -> string, t: Template)
    requires Assemble(files, dump) == Success(t)
    ensures var refs := References(files.recipes[RecipePath(RECIPE_FILE)]);
            && t.resources.Keys == FIXED_KEYS + ComponentKeys(refs)
            && FIXED_KEYS !! ComponentKeys(refs)
            && |t.resources| == 5 + |ComponentKeys(refs)|
  {
    AssembledFrom(files, dump, t);
    var recipe := files.recipes[RecipePath(RECIPE_FILE)];
    BuiltResourceKeys(recipe, files, dump);
    ComponentKeysNotFixed(References(recipe));
  }

  /** A recipe without components, or with an empty list, gives exactly the
      five fixed resources. */
  lemma NoReferencesOnlyFixed(files: Files, dump: ComponentDocument -> string, t: Template)
    requires Assemble(files, dump) == Success(t)
    requires References(files.recipes[RecipePath(RECIPE_FILE)]) == []
    ensures t.resources.Keys == FIXED_KEYS
  {
    ResourceKeysExact(files, dump, t);
  }

  /** The resource under a reference's key, when no later reference derives
      the same key, is a component resource holding the name and description
      of the document found under the normalised path, the reference's
      version, the platform "Linux" and the serialised document. */
  lemma ComponentResourceOfReference(files: Files, dump: ComponentDocument -> string, t: Template, j: nat)
    requires Assemble(files, dump) == Success(t)
    requires var refs := References(files.recipes[RecipePath(RECIPE_FILE)]);
             j < |refs| && forall k :: j < k < |refs| ==> ResourceKey(refs[k].name) != ResourceKey(refs[j].name)
    ensures var ref := References(files.recipes[RecipePath(RECIPE_FILE)])[j];
            var doc := files.components[ComponentPath(NormalizeName(ref.name), ref.version)];
            && ResourceKey(ref.name) in t.resources
            && t.resources[ResourceKey(ref.name)] == Component(doc.name, doc.description, "Linux", ref.version, dump(doc))
            && t.resources[ResourceKey(ref.name)].TypeName() == "AWS::ImageBuilder::Component"
  {
    AssembledFrom(files, dump, t);
    var recipe := files.recipes[RecipePath(RECIPE_FILE)];
    var refs := References(recipe);
    ComponentEntryOfLast(refs, files, dump, j);
    ResourceKeyNotFixed(refs[j].name);
    FixedResourcesAt(ComponentEntries(refs, files, dump), recipe, RecipeEntries(refs));
  }

  /** The recipe's `Components` list follows the recipe's references one for
      one and in order: the i-th entry refers to the i-th reference's key,
      which is a key of `Resources`, and carries the reference's parameters
      exactly when they are present and non-empty. */
  lemma RecipeComponentsFollowReferences(files: Files, dump: ComponentDocument -> string, t: Template)
    requires Assemble(files, dump) == Success(t)
    ensures var recipe := files.recipes[RecipePath(RECIPE_FILE)];
            var refs := References(recipe);
            && IMAGE_RECIPE_KEY in t.resources
            && t.resources[IMAGE_RECIPE_KEY].ImageRecipe?
            && var r := t.resources[IMAGE_RECIPE_KEY];
            && r.name == recipe.name && r.description == recipe.description
            && r.version == recipe.version && r.parentImage == recipe.parentImage
            && |r.components| == |refs|
            && forall i :: 0 <= i < |refs| ==>
                 && r.components[i].componentArn == Ref(ResourceKey(refs[i].name))
                 && r.components[i].componentArn.target in t.resources
                 && (r.components[i].parameters.Some? <==> HasParameters(refs[i]))
                 && (r.components[i].parameters.Some? ==> r.components[i].parameters == refs[i].parameters)
  {
    AssembledFrom(files, dump, t);
    var recipe := files.recipes[RecipePath(RECIPE_FILE)];
    var refs := References(recipe);
    ComponentEntriesKeys(refs, files, dump);
    FixedResourcesAt(ComponentEntries(refs, files, dump), recipe, RecipeEntries(refs));
    forall i | 0 <= i < |refs| ensures ResourceKey(refs[i].name) in t.resources {
      assert refs[i] in refs;
    }
  }

  /** Two references deriving the same key leave one resource under it, the
      later one's, while the recipe's list still refers to the key twice;
      there are then fewer resources than references plus the five fixed. */
  lemma LaterReferenceReplacesEarlier(files: Files, dump: ComponentDocument -> string, t: Template, i: nat, j: nat)
    requires Assemble(files, dump) == Success(t)
    requires var refs := References(files.recipes[RecipePath(RECIPE_FILE)]);
             && i < j < |refs| && ResourceKey(refs[i].name) == ResourceKey(refs[j].name)
             && forall k :: j < k < |refs| ==> ResourceKey(refs[k].name) != ResourceKey(refs[j].name)
    ensures var refs := References(files.recipes[RecipePath(RECIPE_FILE)]);
            var key := ResourceKey(refs[j].name);
            && key in t.resources
            && t.resources[key] == ComponentResource(refs[j], files.components[LookupPath(refs[j])], dump)
            && IMAGE_RECIPE_KEY in t.resources && t.resources[IMAGE_RECIPE_KEY].ImageRecipe?
            && |t.resources[IMAGE_RECIPE_KEY].components| == |refs|
            && t.resources[IMAGE_RECIPE_KEY].components[i].componentArn == Ref(key)
            && t.resources[IMAGE_RECIPE_KEY].components[j].componentArn == Ref(key)
            && |t.resources| < |refs| + 5
  {
    var refs := References(files.recipes[RecipePath(RECIPE_FILE)]);
    ComponentResourceOfReference(files, dump, t, j);
    RecipeComponentsFollowReferences(files, dump, t);
    ResourceKeysExact(files, dump, t);
    ComponentKeysCount(refs);
  }

  /** When no two references derive the same key, `Resources` holds one
      component resource per reference besides the five fixed ones. */
  lemma DistinctKeysResourceCount(files: Files, dump: ComponentDocument -> string, t: Template)
    requires Assemble(files, dump) == Success(t)
    requires var refs := References(files.recipes[RecipePath(RECIPE_FILE)]);
             forall i, j :: 0 <= i < j < |refs| ==> ResourceKey(refs[i].name) != ResourceKey(refs[j].name)
    ensures |t.resources| == |References(files.recipes[RecipePath(RECIPE_FILE)])| + 5
  {
    ResourceKeysExact(files, dump, t);
    ComponentKeysCount(References(files.recipes[RecipePath(RECIPE_FILE)]));
  }

  /** The recipe resource refers only to component keys. */
  lemma RecipeRefsAreComponentKeys(recipe: Recipe, refs: seq<ComponentRef>)
    ensures forall x | x in RecipeResource(recipe, RecipeEntries(refs)).Refs() :: x in ComponentKeys(refs)
  {
    forall x | x in RecipeResource(recipe, RecipeEntries(refs)).Refs() ensures x in ComponentKeys(refs) {
      var c :| c in RecipeEntries(refs) && x == c.componentArn.target;
      var i :| 0 <= i < |refs| && c == RecipeEntries(refs)[i];
      assert refs[i] in refs;
    }
  }

  /** The targets of the fixed resources' cross-references. */
  lemma FixedResourceRefs(recipe: Recipe)
    ensures InfrastructureResource(recipe).Refs() == {INSTANCE_PROFILE_PARAMETER, SUBNET_PARAMETER, SECURITY_GROUP_KEY}
    ensures SecurityGroupResource().Refs() == {VPC_PARAMETER}
    ensures DistributionResource(recipe).Refs() == {}
    ensures PipelineResource(recipe).Refs() == {IMAGE_RECIPE_KEY, INFRASTRUCTURE_KEY, DISTRIBUTION_KEY}
  {
    var groups := [Ref(SECURITY_GROUP_KEY)];
    assert (set g | g in groups :: g.target) == {SECURITY_GROUP_KEY} by {
      assert groups[0] in groups;
    }
  }

  /** Over component entries that hold no cross-reference, the fixed
      resources refer only to resources and parameters. */
  lemma FixedRefsResolve(entries: map<string, Resource>, recipe: Recipe, refs: seq<ComponentRef>)
    requires entries.Keys == ComponentKeys(refs)
    requires forall k | k in entries :: entries[k].Refs() == {}
    ensures var m := WithFixedResources(entries, recipe, RecipeEntries(refs));
            forall k, x | k in m && x in m[k].Refs() :: x in m || x in PARAMETER_NAMES
  {
    var m := WithFixedResources(entries, recipe, RecipeEntries(refs));
    FixedResourcesAt(entries, recipe, RecipeEntries(refs));
    assert forall x | x in m[IMAGE_RECIPE_KEY].Refs() :: x in m by {
      RecipeRefsAreComponentKeys(recipe, refs);
    }
    assert forall x | x in m[INFRASTRUCTURE_KEY].Refs() :: x in m || x in PARAMETER_NAMES by {
      FixedResourceRefs(recipe);
    }
    assert m[SECURITY_GROUP_KEY].Refs() <= PARAMETER_NAMES && m[DISTRIBUTION_KEY].Refs() == {} by {
      FixedResourceRefs(recipe);
    }
    assert m[PIPELINE_KEY].Refs() <= m.Keys by {
      FixedResourceRefs(recipe);
    }
    forall k | k in m ensures m[k].Refs() <= m.Keys + PARAMETER_NAMES {
      if k !in FIXED_KEYS {
        assert m[k] == entries[k];
      }
    }
  }

  /** Every cross-reference of a built template resolves. */
  lemma BuiltRefsResolve(recipe: Recipe, files: Files, dump: ComponentDocument -> string)
    requires AllPresent(References(recipe), files)
    ensures BuildTemplate(recipe, files, dump).parameters.Keys == PARAMETER_NAMES
    ensures RefsResolve(BuildTemplate(recipe, files, dump))
  {
    var refs := References(recipe);
    var entries := ComponentEntries(refs, files, dump);
    var t := BuildTemplate(recipe, files, dump);
    assert t.resources == WithFixedResources(entries, recipe, RecipeEntries(refs));
    assert t.parameters.Keys == PARAMETER_NAMES;
    assert forall k | k in t.outputs :: t.outputs[k].value.target in FIXED_KEYS;
    ComponentEntriesAreComponents(refs, files, dump);
    ComponentEntriesKeys(refs, files, dump);
    FixedRefsResolve(entries, recipe, refs);
    FixedResourcesAt(entries, recipe, RecipeEntries(refs));
  }

  /** Every `Ref` in `Resources` names a resource or one of the three
      parameters, and every output's `Ref` names a resource. */
  lemma AllRefsResolve(files: Files, dump: ComponentDocument -> string, t: Template)
    requires Assemble(files, dump) == Success(t)
    ensures t.parameters.Keys == PARAMETER_NAMES
    ensures RefsResolve(t)
  {
    AssembledFrom(files, dump, t);
    BuiltRefsResolve(files.recipes[RecipePath(RECIPE_FILE)], files, dump);
  }

  /** The names derived from the recipe's name, and the types of the fixed
      resources. */
  lemma DerivedNames(files: Files, dump: ComponentDocument -> string, t: Template)
    requires Assemble(files, dump) == Success(t)
    ensures var name := files.recipes[RecipePath(RECIPE_FILE)].name;
            && FIXED_KEYS <= t.resources.Keys
            && t.resources[INFRASTRUCTURE_KEY].InfrastructureConfiguration?
            && t.resources[INFRASTRUCTURE_KEY].name == name + "Infrastructure"
            && t.resources[DISTRIBUTION_KEY].DistributionConfiguration?
            && t.resources[DISTRIBUTION_KEY].name == name + "Distribution"
            && t.resources[DISTRIBUTION_KEY].distributions == [Distribution("ap-northeast-1",
                 AmiDistribution(name + "-{{ imagebuilder:buildDate }}", "AMI created by " + name))]
            && t.resources[PIPELINE_KEY].ImagePipeline?
            && t.resources[PIPELINE_KEY].name == name + "Pipeline"
            && t.resources[SECURITY_GROUP_KEY].TypeName() == "AWS::EC2::SecurityGroup"
  {
    AssembledFrom(files, dump, t);
    var recipe := files.recipes[RecipePath(RECIPE_FILE)];
    var refs := References(recipe);
    FixedResourcesAt(ComponentEntries(refs, files, dump), recipe, RecipeEntries(refs));
  }
}
