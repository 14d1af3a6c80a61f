# Image Builder template generator, modelled in Dafny

This project models the template assembler of `scripts/generate-template.py`. The assembler reads
the recipe `recipes/ubuntu-development.yml`. For each reference in the recipe's `components` list,
it loads the component document from `components/<name>/<version>.yml`. The name in that path is
lower-cased, with spaces turned into hyphens. The assembler then builds an AWS CloudFormation
template with these parts:

- three parameters;
- one `AWS::ImageBuilder::Component` resource per derived resource key. The key is `Component`
  followed by the reference's name with its spaces removed;
- an image recipe whose `Components` list follows the recipe's references in order;
- an infrastructure configuration, a security group, a distribution configuration and an image
  pipeline;
- three outputs.

The parts are linked by `{"Ref": key}` cross-references.

The model has three modules:

- `Names` (`names.dfy`) holds the two string rules: path-segment normalisation and resource-key
  derivation. It also holds the five fixed resource keys.
- `CloudFormation` (`cloudformation.dfy`) holds the template as typed records. A dictionary of
  the output is a `map`, because the serialiser writes keys in sorted order, so insertion order
  never reaches the output. A list is a `seq`, whose order does reach it. `Refs()` collects a
  resource's cross-reference targets. `RefsResolve` says that all of them resolve.
- `Generate` (`generate_template.dfy`) holds the rest:
  - the file store, as maps keyed by the path the source builds;
  - the loaders, as lookups that return a `Result`;
  - the specification function `Assemble`;
  - the imperative assembler `GenerateTemplate`, proved equal to `Assemble`. Its loop writes
    the resource map, and it calls `RecipeComponentList` for the recipe's component list;
  - lemmas about `Assemble`: which keys `Resources` has, how key collisions behave, the order of
    the component list, that every reference resolves, and when the run fails.

When two references derive the same resource key, the code silently lets the later reference's
resource replace the earlier one. The model follows the code here, and
`LaterReferenceReplacesEarlier` states the resulting behaviour. A guard that fails on such a
collision is an addition the program does not have, so the model leaves it out.

## Model

| member | source | states |
|---|---|---|
| Names.LowerChar | scripts/generate-template.py:59 | An ASCII upper-case letter becomes its lower-case letter (+32). Every other character is kept. The result is never upper-case. |
| Names.Lower | scripts/generate-template.py:59 | `lower()` keeps the length and lower-cases each character in place. |
| Names.ReplaceChar | scripts/generate-template.py:59 | `replace(a, b)` keeps the length and substitutes `b` exactly where the input holds `a`. |
| Names.RemoveChar | scripts/generate-template.py:64 | `replace(c, "")` leaves no `c`, never lengthens the string, and is the identity on a string without `c`. |
| Names.RemoveCharMembers | scripts/generate-template.py:64 | A character occurs in the result exactly when it occurs in the input and is not the removed one. |
| Names.RemoveCharAppend | scripts/generate-template.py:64 | Removing a character from a concatenation removes it from each part. With `RemoveCharSingle`, the kept characters stay in order and keep their multiplicity. |
| Names.RemoveCharSingle | scripts/generate-template.py:64 | On one character, the removed character gives the empty string, and any other character is kept. |
| Names.NormalizeName | scripts/generate-template.py:59 | The lookup segment has the name's length. Each space becomes `-` and every other character is lower-cased. The result holds no space and no upper-case letter. |
| Names.ResourceKey | scripts/generate-template.py:64 | The key starts with `Component`, and the rest is the name with its spaces removed. The key holds no space. A name without spaces is appended unchanged. |
| Names.NormalizeNameIdempotent | scripts/generate-template.py:59 | Normalising a normalised segment changes nothing. |
| Names.ResourceKeysCollide | scripts/generate-template.py:64 | Two names give the same key exactly when they are equal once their spaces are removed. |
| Names.ResourceKeyNotFixed | scripts/generate-template.py:64 | A component key is never one of the five fixed keys. |
| Names.FixedKeysCount | scripts/generate-template.py:97-152 | The five fixed resource keys are distinct. |
| Names.NormalizeNginxSetup | scripts/generate-template.py:59 | "Nginx Setup" is looked up as "nginx-setup". |
| Names.ResourceKeyOfSpacedName | scripts/generate-template.py:64 | "A B" gives the key "ComponentAB", and so does "AB". |
| Generate.LoadRecipe | scripts/generate-template.py:16-23 | The recipe succeeds exactly when `recipes/<file>` is stored. It then returns the stored recipe. Otherwise it fails, naming that path. |
| Generate.LoadComponent | scripts/generate-template.py:7-14 | The document succeeds exactly when `components/<name>/<version>.yml` is stored. It then returns the stored document. Otherwise it fails, naming that path. |
| Generate.NginxSetupLookupPath | scripts/generate-template.py:9 | Reference "Nginx Setup" at "2.1" is looked up under `components/nginx-setup/2.1.yml`. |
| Generate.LookupPathVersion | scripts/generate-template.py:9 | The lookup path is `components/`, the normalised name, `/`, the version unchanged, then `.yml`. The version can be read back from its place. |
| Generate.LookupPathSeparatesVersions | scripts/generate-template.py:9 | Two versions of one component are looked up under different paths. |
| Generate.RecipePath | scripts/generate-template.py:18 | The path `recipes/<file>`. `LoadRecipe` states its use, and `RecipePathLiteral` the path the generator reads. |
| Generate.ComponentPath | scripts/generate-template.py:9 | The path `components/<name>/<version>.yml`. `LoadComponent` states its use, and `LookupPathVersion` its shape. |
| Generate.RecipeResource | scripts/generate-template.py:97-106 | The image recipe resource. `RecipeComponentsFollowReferences` states its fields and component list. |
| Generate.BuildTemplate | scripts/generate-template.py:31-178 | The template built when every file is present. `AssembleBuilds` and `AssembledFrom` tie it to a successful run, and the lemmas below state what it holds. |
| CloudFormation.Resource.TypeName | scripts/generate-template.py:68-153 | The `Type` literal of each resource. `ComponentResourceOfReference` and `DerivedNames` state it for the component resources and the security group. |
| Generate.LookupPath | scripts/generate-template.py:58-61 | The path a reference is looked up under: its normalised name and its unchanged version. `LookupPathVersion` and `NginxSetupLookupPath` state its shape. |
| Generate.References | scripts/generate-template.py:53 | `recipe.get("components", [])`: the recipe's list, or the empty list when the key is absent. `NoReferencesOnlyFixed` states what an empty list gives. |
| Generate.HasParameters | scripts/generate-template.py:92 | The truth test on `parameters`: present and non-empty. `RecipeComponentsFollowReferences` states its effect. |
| Generate.ComponentResource | scripts/generate-template.py:67-76 | The component resource one reference writes. `ComponentResourceOfReference` states its fields. |
| Generate.ComponentEntries | scripts/generate-template.py:53-76 | The resource map after the first loop, with later writes replacing earlier ones. `ComponentEntriesKeys`, `ComponentEntriesAreComponents` and `ComponentEntryOfLast` state its keys and entries. |
| Generate.RecipeEntry | scripts/generate-template.py:84-95 | One entry of the recipe's `Components` list. `RecipeComponentsFollowReferences` states its fields. |
| Generate.RecipeEntries | scripts/generate-template.py:83-95 | The recipe's `Components` list, one entry per reference. `RecipeComponentList` computes it, and `RecipeComponentsFollowReferences` states its length, order and entries. |
| Generate.TemplateParameters | scripts/generate-template.py:34-47 | The three parameters. `BuiltRefsResolve` states that their names are `VpcId`, `SubnetId` and `InstanceProfileArn`. |
| Generate.InfrastructureResource | scripts/generate-template.py:109-120 | The infrastructure configuration. `DerivedNames` states its name, and `FixedResourceRefs` its reference targets. |
| Generate.SecurityGroupResource | scripts/generate-template.py:123-133 | The security group. `FixedResourceRefs` states that it refers to the VPC parameter only. |
| Generate.DistributionResource | scripts/generate-template.py:136-149 | The distribution configuration. `DerivedNames` states its name and distribution. |
| Generate.PipelineResource | scripts/generate-template.py:152-162 | The image pipeline. `DerivedNames` states its name, and `FixedResourceRefs` its three targets. |
| Generate.TemplateOutputs | scripts/generate-template.py:165-178 | The three outputs. `AllRefsResolve` states that each names a resource. |
| Generate.WithFixedResources | scripts/generate-template.py:97-162 | The five fixed assignments in source order. `FixedResourcesAt` states the keys added and the entries left unchanged. |
| Generate.Assemble | scripts/generate-template.py:25-180 | What a run returns: a failure naming the first missing file, or the built template. `AssembleSucceeds`, `MissingRecipeFails` and `MissingComponentAborts` state when it fails, and the lemmas below state what the template holds. |
| CloudFormation.Resource.Refs | scripts/generate-template.py:89 | The targets of every `Ref` among a resource's properties. `FixedResourceRefs` and `RecipeRefsAreComponentKeys` state them for each resource. |
| Generate.FirstMissing | scripts/generate-template.py:53-61 | There is no missing reference exactly when every component file is present. Otherwise the index is of a missing reference, and every earlier one is present. |
| Generate.RecipeComponentList | scripts/generate-template.py:83-95 | The second loop builds, in order, one entry per reference: a `Ref` to the reference's key, plus its parameters when they are present and non-empty. |
| Generate.GenerateTemplate | scripts/generate-template.py:25-180 | The imperative assembler returns exactly `Assemble`. That is the failure of the first missing file, or else the template that both loops and the fixed assignments build. |
| Generate.FirstMissingIs | scripts/generate-template.py:53-61 | A missing reference whose predecessors are all present is the first missing one. |
| Generate.ComponentEntriesStep | scripts/generate-template.py:67-76 | One loop iteration writes the reference's resource under its key, over any earlier entry. |
| Generate.ComponentEntriesKeys | scripts/generate-template.py:53-76 | After the first loop, the resource keys are exactly the keys the references derive. |
| Generate.ComponentEntriesAreComponents | scripts/generate-template.py:67-76 | Every entry the first loop writes is a component resource without cross-references. |
| Generate.ComponentEntryOfLast | scripts/generate-template.py:67-76 | The entry under a key belongs to the last reference deriving that key. |
| Generate.DistinctCount | scripts/generate-template.py:53-67 | A list has at most as many distinct values as entries. It has strictly fewer when one value repeats, and exactly as many when none does. |
| Generate.ComponentKeysCount | scripts/generate-template.py:64-67 | There are never more component keys than references. There are strictly fewer when two references collide, and exactly as many when no two do. |
| Generate.MissingRecipeFails | scripts/generate-template.py:18-20 | A missing recipe aborts the run, naming `recipes/ubuntu-development.yml`. |
| Generate.RecipePathLiteral | scripts/generate-template.py:29 | The recipe is read from `recipes/ubuntu-development.yml`. |
| Generate.AssembleSucceeds | scripts/generate-template.py:10-11 | A run succeeds exactly when the recipe and every referenced component file are present. Any missing file aborts the whole run. |
| Generate.AssembleBuilds | scripts/generate-template.py:25-180 | When every file is present, the run returns the built template. |
| Generate.MissingComponentAborts | scripts/generate-template.py:58-61 | The first missing component aborts the run, naming its path: the normalised name and the unchanged version. |
| Generate.AssembledFrom | scripts/generate-template.py:25-180 | A successful run's template is built from the stored recipe, and all its components are present. |
| Generate.FixedResourcesAt | scripts/generate-template.py:97-162 | The five assignments add the fixed keys with their resources and leave every other entry unchanged. |
| Generate.ComponentKeysNotFixed | scripts/generate-template.py:64 | Component keys and fixed keys are disjoint. |
| Generate.BuiltResourceKeys | scripts/generate-template.py:53-162 | A built template's resource keys are the fixed keys plus the component keys, and it has 5 + (number of component keys) resources. |
| Generate.ResourceKeysExact | scripts/generate-template.py:53-162 | `Resources` holds exactly the five fixed keys plus one key per distinct derived component key. The two groups are disjoint. |
| Generate.NoReferencesOnlyFixed | scripts/generate-template.py:53 | A missing or empty `components` list gives exactly the five fixed keys. |
| Generate.ComponentResourceOfReference | scripts/generate-template.py:67-76 | For the last reference deriving a key, the resource under that key has these fields: name and description from the document at the normalised path, the reference's version, platform "Linux", the serialised document, and the component type. |
| Generate.RecipeComponentsFollowReferences | scripts/generate-template.py:83-104 | The image recipe copies the recipe's fields. Its `Components` list has one entry per reference, in order. Entry i refers to reference i's key, which is a resource. Parameters appear exactly when non-empty, and are copied unchanged. |
| Generate.LaterReferenceReplacesEarlier | scripts/generate-template.py:53-95 | On a key collision, `Resources` keeps only the later reference's resource, yet both list entries refer to the key. There are then fewer than references + 5 resources. |
| Generate.DistinctKeysResourceCount | scripts/generate-template.py:53-162 | When no two references derive the same key, `Resources` holds exactly references + 5 entries. |
| Generate.RecipeRefsAreComponentKeys | scripts/generate-template.py:89 | The recipe resource refers only to component keys. |
| Generate.FixedResourceRefs | scripts/generate-template.py:114-159 | The fixed resources' reference targets: the infrastructure configuration refers to two parameters and the security group, the security group to the VPC parameter, the pipeline to three fixed resources, and the distribution to nothing. |
| Generate.FixedRefsResolve | scripts/generate-template.py:97-162 | After the fixed assignments, every reference names a resource or a parameter. |
| Generate.BuiltRefsResolve | scripts/generate-template.py:34-47 | A built template has the three parameters, and all its references resolve. |
| Generate.AllRefsResolve | scripts/generate-template.py:166-177 | Every `Ref` in `Resources` names a resource or one of `VpcId`, `SubnetId`, `InstanceProfileArn`. Every output names a resource. |
| Generate.DerivedNames | scripts/generate-template.py:109-162 | The configuration, distribution and pipeline names are the recipe name plus `Infrastructure`, `Distribution` or `Pipeline`. The AMI name ends in `-{{ imagebuilder:buildDate }}`. The security group has the EC2 type. |

## Left out

- File access (`Path.exists`, `open`) and YAML parsing are modelled as lookups in maps keyed by the path string. Documents are typed records.
- `yaml.dump` of a component document is the uninterpreted parameter `dump`. Its output is not modelled, so no round trip is stated.
- Serialising the template, writing `generated-template.yml`, `print` and `exit(1)` in `main` are process and I/O plumbing.
- Names.LowerChar: lower-cases ASCII letters only, not the full Unicode `str.lower()`.
- Generate.LookupPathSeparatesVersions: holds of the path strings as built, not of the files they open. `pathlib.Path` drops `.` segments and repeated or trailing `/`. So the versions `"1.0"` and `"./1.0"` both open `components/x/1.0.yml`, and the same goes for such segments inside a name. `..` segments are kept by `pathlib` and resolved by the operating system when the file is opened. The model keys the store by the string as built.
- Generate.AssembleSucceeds: "present" means present and well-formed. A file that exists but does not parse aborts the source. So does an empty file, which loads as `None` and fails at line 53 or line 70. The typed store cannot hold such a file.
- Generate.AllRefsResolve: holds because the document fields are typed as strings. The source copies field values verbatim (lines 70, 71, 73, 93 and 100-103). So a value such as `parentImage: {Ref: X}`, or a component `name` of `{Ref: X}`, would put an unresolved reference into the output.
- Generate.LoadComponent: a version is a string. YAML reads an unquoted `version: 1.10` as the float 1.1, which the source then looks up as `1.1.yml`. The model does not capture this.
- The local `components` dictionary is written but never read, and has no effect on the output.
- Some inputs make the source raise a `KeyError`, and the typed documents cannot express them:
  - a recipe that lacks `name`, `description`, `version` or `parentImage` (lines 100-103);
  - a reference that lacks `name` or `version` (lines 54-55);
  - a component document that lacks `name` or `description` (lines 70-71).
- A recipe with `components: null` makes the source raise a `TypeError`, which the typed documents cannot express either.
- Generate.RecipeComponentList: `parameters` is a string map. Other truthy values the source would copy, such as a non-empty list, are not modelled.
- Generate.GenerateTemplate: the second loop is the separate method `RecipeComponentList`, called from the assembler.
- Dictionary insertion order is not modelled: the serialiser sorts mapping keys.
