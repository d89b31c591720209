/** The change alert written after every create, update and delete
    (backend/utils/notifyHelper.js): level, heading and body, and the insert
    into the notification store, whose failure is swallowed. */
module Notify {
  datatype Level = Success | Info | Alert

  function LevelName(l: Level): string {
    match l
    case Success => "success"
    case Info => "info"
    case Alert => "alert"
  }

  /** `levelMap[action] || 'info'`. */
  function LevelFor(action: string): (l: Level)
    ensures l == Success <==> action == "created"
    ensures l == Alert <==> action == "deleted"
    ensures l == Info <==> action != "created" && action != "deleted"
  {
    if action == "created" then Success
    else if action == "updated" then Info
    else if action == "deleted" then Alert
    else Info
  }

  /** `triggeredBy || 'System'`. */
  function Actor(triggeredBy: string): (a: string)
    ensures a != ""
    ensures triggeredBy != "" ==> a == triggeredBy
  {
    if triggeredBy != "" then triggeredBy else "System"
  }

  datatype Notification = Notification(level: Level, heading: string, body: string, entity: string,
                                       action: string, entityId: string, triggeredBy: string)

  /** The document `createAlert` stores. */
  function Build(entity: string, action: string, name: string, triggeredBy: string, entityId: string): Notification {
    Notification(LevelFor(action), entity + " " + action,
                 entity + " \"" + name + "\" was " + action + " by " + Actor(triggeredBy) + ".",
                 entity, action, entityId, Actor(triggeredBy))
  }

  /** The heading opens the body's sentence apart from the quoted name, and
      the body names the same actor the notification stores. */
  lemma BuildConsistent(entity: string, action: string, name: string, triggeredBy: string, entityId: string)
    ensures var n := Build(entity, action, name, triggeredBy, entityId);
            n.triggeredBy != ""
            && n.heading == n.entity + " " + n.action
            && n.body == n.entity + " \"" + name + "\" was " + n.action + " by " + n.triggeredBy + "."
            && n.body[|n.body| - 1] == '.'
            && n.level == LevelFor(n.action)
  {
  }

  /** The store before and after `createAlert`: the insert either succeeds
      (`accepted`) and appends the alert, or fails and leaves the store as it
      was; no failure reaches the caller. */
  function CreateAlert(store: seq<Notification>, accepted: bool,
                       entity: string, action: string, name: string, triggeredBy: string, entityId: string)
    : (r: seq<Notification>)
    ensures accepted ==> |r| == |store| + 1 && r[..|store|] == store
                         && r[|store|] == Build(entity, action, name, triggeredBy, entityId)
    ensures !accepted ==> r == store
  {
    if accepted then store + [Build(entity, action, name, triggeredBy, entityId)] else store
  }
}
