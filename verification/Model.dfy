/** The entities that the configuration files hold. */
module Model {

  datatype RuleCondition = RuleCondition(
    attribute: string, operator: string, value: string,
    actions: seq<string>, children: seq<RuleCondition>,
    elseActions: seq<string>, elseAction: string, defaultAction: string)

  datatype Rule = Rule(enabled: bool, matches: seq<RuleCondition>, defaultAction: string)

  datatype ConditionRule = ConditionRule(
    attribute: string, operator: string, value: string,
    actions: seq<string>, isInline: bool, inlineAction: string, defaultAction: string)

  datatype ServiceRule = ServiceRule(
    service: string, actions: seq<string>, conditions: seq<ConditionRule>, defaultAction: string)

  datatype Profile = Profile(name: string, services: seq<ServiceRule>, defaultAction: string)

  datatype Device = Device(
    name: string, address: string, platform: string, keyType: string, key: string,
    group: string, lastSeen: string, status: string)

  datatype DeviceGroup = DeviceGroup(name: string, description: string, keyType: string, key: string, members: nat)
}
