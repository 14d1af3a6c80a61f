/** The CloudFormation template the generator assembles, as typed records.

    A dictionary of the output becomes a `map`: the serialiser writes mapping
    keys in sorted order, so the order in which entries are inserted does not
    reach the output. A list becomes a `seq`, whose order does. */
module CloudFormation {

  datatype Option<+T> = None | Some(value: T)

  /** `{"Ref": target}`: a cross-reference to a resource or a parameter,
      resolved at deployment time. */
  datatype Ref = Ref(target: string)

  datatype Parameter = Parameter(paramType: string, description: string)

  /** One entry of an image recipe's `Components` list. */
  datatype RecipeComponent = RecipeComponent(componentArn: Ref, parameters: Option<map<string, string>>)

  datatype EgressRule = EgressRule(ipProtocol: string, cidrIp: string)

  datatype AmiDistribution = AmiDistribution(name: string, description: string)

  datatype Distribution = Distribution(region: string, ami: AmiDistribution)

  /** A resource of the template: its `Type` is given by the variant, its
      `Properties` by the variant's fields. */
  datatype Resource =
    | Component(name: string, description: string, platform: string, version: string, data: string)
    | ImageRecipe(name: string, description: string, version: string, parentImage: string,
                  components: seq<RecipeComponent>)
    | InfrastructureConfiguration(name: string, description: string, instanceProfileName: Ref,
                                  subnetId: Ref, securityGroupIds: seq<Ref>, instanceTypes: seq<string>,
                                  terminateInstanceOnFailure: bool)
    | SecurityGroup(groupDescription: string, vpcId: Ref, securityGroupEgress: seq<EgressRule>)
    | DistributionConfiguration(name: string, description: string, distributions: seq<Distribution>)
    | ImagePipeline(name: string, description: string, imageRecipeArn: Ref,
                    infrastructureConfigurationArn: Ref, distributionConfigurationArn: Ref, status: string)
  {
    /** The resource's `Type` field. */
    function TypeName(): string {
      match this
      case Component(_, _, _, _, _) => "AWS::ImageBuilder::Component"
      case ImageRecipe(_, _, _, _, _) => "AWS::ImageBuilder::ImageRecipe"
      case InfrastructureConfiguration(_, _, _, _, _, _, _) => "AWS::ImageBuilder::InfrastructureConfiguration"
      case SecurityGroup(_, _, _) => "AWS::EC2::SecurityGroup"
      case DistributionConfiguration(_, _, _) => "AWS::ImageBuilder::DistributionConfiguration"
      case ImagePipeline(_, _, _, _, _, _) => "AWS::ImageBuilder::ImagePipeline"
    }

    /** The targets of every `Ref` among the resource's properties. */
    function Refs(): set<string> {
      match this
      case Component(_, _, _, _, _) => {}
      case ImageRecipe(_, _, _, _, cs) => set c | c in cs :: c.componentArn.target
      case InfrastructureConfiguration(_, _, profile, subnet, groups, _, _) =>
        {profile.target, subnet.target} + set g | g in groups :: g.target
      case SecurityGroup(_, vpc, _) => {vpc.target}
      case DistributionConfiguration(_, _, _) => {}
      case ImagePipeline(_, _, recipe, infrastructure, distribution, _) =>
        {recipe.target, infrastructure.target, distribution.target}
    }
  }

  datatype Output = Output(description: string, value: Ref)

  datatype Template = Template(
    formatVersion: string,
    description: string,
    parameters: map<string, Parameter>,
    resources: map<string, Resource>,
    outputs: map<string, Output>)

  /** Every cross-reference of the template can be resolved: a `Ref` inside a
      resource names a resource or a parameter, and an output's `Ref` names a
      resource. */
  ghost predicate RefsResolve(t: Template) {
    && (forall k, x | k in t.resources && x in t.resources[k].Refs() ::
          x in t.resources || x in t.parameters)
    && (forall k | k in t.outputs :: t.outputs[k].value.target in t.resources)
  }
}
