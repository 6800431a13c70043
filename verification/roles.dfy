/** Role labels and the roles list of the user summary (src/App.js). */
module Roles {
  import opened Text

  /** The fixed translation table of role tags. */
  const RoleLabels: map<string, string> := map[
    "admin" := "ผู้ดูแลระบบ",
    "teacher" := "ครู",
    "parent" := "ผู้ปกครอง",
    "student" := "นักเรียน",
    "executive" := "ผู้บริหาร",
    "registrar" := "เจ้าหน้าที่ทะเบียน"]

  /** `getRoleText`: the label of a known tag; any other tag as it is. */
  function RoleText(role: string): (r: string)
    ensures role in RoleLabels ==> r == RoleLabels[role]
    ensures role !in RoleLabels ==> r == role
  {
    if role == "admin" then "ผู้ดูแลระบบ"
    else if role == "teacher" then "ครู"
    else if role == "parent" then "ผู้ปกครอง"
    else if role == "student" then "นักเรียน"
    else if role == "executive" then "ผู้บริหาร"
    else if role == "registrar" then "เจ้าหน้าที่ทะเบียน"
    else role
  }

  /** A tag is shown as itself exactly when it is not one of the six known
      tags, and the six labels are pairwise different. */
  lemma RoleTextIdentityIff(role: string)
    ensures RoleText(role) == role <==> role !in RoleLabels
    ensures forall a, b :: a in RoleLabels && b in RoleLabels && a != b ==> RoleText(a) != RoleText(b)
  {
  }

  /** One line of the roles list. */
  function RoleLine(role: string): string
  {
    "- " + RoleText(role)
  }

  /** The lines of the roles list, one per role, in the user's order: a dash,
      then the label the table gives a known tag, or the tag itself. */
  function RoleLines(roles: seq<string>): (r: seq<string>)
    ensures |r| == |roles|
    ensures forall i :: 0 <= i < |roles| ==>
      r[i] == "- " + (if roles[i] in RoleLabels then RoleLabels[roles[i]] else roles[i])
  {
    seq(|roles|, i requires 0 <= i < |roles| => RoleLine(roles[i]))
  }

  /** The roles list of `showUserRoles`: empty exactly when the user has no
      roles, and otherwise starting with the first role's dash. */
  function RolesList(roles: seq<string>): (r: string)
    ensures r == "" <==> |roles| == 0
    ensures |roles| > 0 ==> "- " <= r
  {
    var lines := RoleLines(roles);
    JoinEmptyIff(lines, "<br>");
    Join(lines, "<br>")
  }

  /** A role line contains `<br>` only if the raw tag does. */
  lemma RoleLineFree(role: string)
    requires !Contains(role, "<br>")
    ensures !Contains(RoleLine(role), "<br>")
  {
    if role in RoleLabels {
      NoStartCharNoContains(RoleLine(role), "<br>");
    } else {
      PrefixNoContains("- ", role, "<br>");
    }
  }

  /** Reading the roles list back line by line gives exactly one "- label"
      line per role, in the user's order, provided no raw tag contains the
      line break itself. With no roles the list is empty. */
  lemma RolesListLines(roles: seq<string>)
    requires forall i :: 0 <= i < |roles| ==> !Contains(roles[i], "<br>")
    ensures |roles| == 0 <==> RolesList(roles) == ""
    ensures |roles| > 0 ==> Split(RolesList(roles), "<br>") == RoleLines(roles)
  {
    var lines := RoleLines(roles);
    JoinEmptyIff(lines, "<br>");
    if |roles| > 0 {
      forall i | 0 <= i < |lines| ensures !Contains(lines[i], "<br>") {
        RoleLineFree(roles[i]);
      }
      SeparatorsBorderFree();
      SplitJoin(lines, "<br>");
    }
  }
}
