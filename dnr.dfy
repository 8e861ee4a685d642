/**
 * The records handed to Chrome's `declarativeNetRequest.updateDynamicRules`:
 * every rule the extension installs has the action `block`, a priority, and
 * a condition that is either a URL filter or a regular-expression filter
 * over a list of resource types.
 */
module Dnr {

  datatype ResourceType = MainFrame | SubFrame | Script | Image | Stylesheet | XmlHttpRequest | Media

  datatype Condition =
    | UrlFilter(urlFilter: string)
    | RegexFilter(regexFilter: string)

  /** A `{id, priority, action: {type: 'block'}, condition}` record. */
  datatype BlockRule = BlockRule(id: nat, priority: nat, condition: Condition, resourceTypes: seq<ResourceType>)

  /** What one `updateDynamicRules` call asks for: rules to add and ids to remove. */
  datatype RulesUpdate = RulesUpdate(addRules: seq<BlockRule>, removeRuleIds: set<nat>)
}
