/**
  `ViewUtils`: the read-only helpers the task views share: who may edit a task, the calendar
  colours of a task or a project, and the lookup of an active organization member.
*/
module ViewUtils {
  import opened Wrappers
  import opened PyValues
  import opened TaskModel
  import opened LookupKeys

  datatype Role = Owner | Admin | Member

  /**
    `can_edit_task`: `memberships` maps (organization, user) to the role (the pair is unique);
    `cardCreators` maps an idea card to its `created_by_id`.
  */
  function CanEditTask(activeOrg: Option<string>, user: string, memberships: map<(string, string), Role>,
                       cardCreators: map<string, Option<string>>, task: Task): bool
  {
    if activeOrg.None? then false
    else if (activeOrg.value, user) !in memberships then false
    else if memberships[(activeOrg.value, user)] in {Owner, Admin} then true
    else if task.ideaCard.Some? && task.ideaCard.value in cardCreators && cardCreators[task.ideaCard.value] == Some(user) then true
    else task.assignedTo == user
  }

  /**
    Editing needs an active organization and a membership in it; owners and admins may edit every
    task, other members only tasks they are assigned or whose idea card they created.
  */
  lemma CanEditTaskIff(activeOrg: Option<string>, user: string, memberships: map<(string, string), Role>,
                       cardCreators: map<string, Option<string>>, task: Task)
    ensures CanEditTask(activeOrg, user, memberships, cardCreators, task) <==>
      activeOrg.Some? && (activeOrg.value, user) in memberships &&
      (memberships[(activeOrg.value, user)] != Member ||
       task.assignedTo == user ||
       (task.ideaCard.Some? && task.ideaCard.value in cardCreators && cardCreators[task.ideaCard.value] == Some(user)))
  {
  }

  /** A plain member who neither is assigned nor created the idea card cannot edit. */
  lemma MemberNeedsAssignmentOrAuthorship(org: string, user: string, memberships: map<(string, string), Role>,
                                          cardCreators: map<string, Option<string>>, task: Task)
    requires (org, user) in memberships && memberships[(org, user)] == Member
    requires task.assignedTo != user && task.ideaCard.None?
    ensures !CanEditTask(Some(org), user, memberships, cardCreators, task)
  {
  }

  // ---------------------------------------------------------------------------
  // Calendar styles
  // ---------------------------------------------------------------------------

  datatype EventStyle = EventStyle(backgroundColor: string, borderColor: string, textColor: string)

  /** The three styles a status-coloured calendar uses. */
  datatype StyleTable = StyleTable(inProgress: EventStyle, done: EventStyle, other: EventStyle)

  /** `task_event_style` in `views/utils.py`. */
  const UtilsStyles := StyleTable(
    EventStyle("rgba(16, 185, 129, 0.85)", "rgba(16, 185, 129, 1)", "rgb(244, 244, 245)"),
    EventStyle("rgba(59, 130, 246, 0.85)", "rgba(59, 130, 246, 1)", "rgb(244, 244, 245)"),
    EventStyle("rgba(161, 161, 170, 0.85)", "rgba(161, 161, 170, 1)", "rgb(244, 244, 245)"))

  /** `_task_event_style` in `views_backup.py`: the same chain with other colours. */
  const BackupStyles := StyleTable(
    EventStyle("rgba(16, 185, 129, 0.85)", "rgba(16, 185, 129, 1)", "rgb(244, 244, 245)"),
    EventStyle("rgba(113, 113, 122, 0.55)", "rgba(113, 113, 122, 0.9)", "rgb(244, 244, 245)"),
    EventStyle("rgba(99, 102, 241, 0.75)", "rgba(99, 102, 241, 1)", "rgb(244, 244, 245)"))

  /** The status chain: IN_PROGRESS, then DONE, then everything else. */
  function TaskEventStyle(table: StyleTable, status: string): EventStyle {
    if status == "IN_PROGRESS" then table.inProgress
    else if status == "DONE" then table.done
    else table.other
  }

  /** The mapping is total and three-way: every status other than the two named ones gets the default. */
  lemma TaskEventStyleThreeWay(table: StyleTable, status: string)
    requires table.inProgress != table.other && table.done != table.other && table.inProgress != table.done
    ensures TaskEventStyle(table, status) in {table.inProgress, table.done, table.other}
    ensures TaskEventStyle(table, status) == table.inProgress <==> status == StatusName(InProgress)
    ensures TaskEventStyle(table, status) == table.done <==> status == StatusName(Done)
    ensures TaskEventStyle(table, status) == table.other <==> status != StatusName(InProgress) && status != StatusName(Done)
  {
  }

  /** Both style tables keep the three statuses apart. */
  lemma StyleTablesDistinguishStatuses()
    ensures UtilsStyles.inProgress != UtilsStyles.other && UtilsStyles.done != UtilsStyles.other
    ensures UtilsStyles.inProgress != UtilsStyles.done
    ensures BackupStyles.inProgress != BackupStyles.other && BackupStyles.done != BackupStyles.other
    ensures BackupStyles.inProgress != BackupStyles.done
  {
    assert UtilsStyles.done.backgroundColor[5] != UtilsStyles.other.backgroundColor[5];
    assert UtilsStyles.inProgress.backgroundColor[7] != UtilsStyles.other.backgroundColor[7];
    assert UtilsStyles.inProgress.backgroundColor[5] != UtilsStyles.done.backgroundColor[5];
    assert BackupStyles.done.backgroundColor[5] != BackupStyles.other.backgroundColor[5];
    assert BackupStyles.inProgress.backgroundColor[5] != BackupStyles.other.backgroundColor[5];
    assert BackupStyles.inProgress.backgroundColor[6] != BackupStyles.done.backgroundColor[6];
  }

  // ---------------------------------------------------------------------------
  // Project colours
  // ---------------------------------------------------------------------------

  type Rgb = (int, int, int)

  const Palette: map<string, Rgb> := map[
    "indigo" := (99, 102, 241),
    "emerald" := (16, 185, 129),
    "sky" := (14, 165, 233),
    "violet" := (139, 92, 246),
    "rose" := (244, 63, 94),
    "amber" := (245, 158, 11),
    "teal" := (20, 184, 166),
    "orange" := (249, 115, 22),
    "lime" := (132, 204, 22),
    "fuchsia" := (217, 70, 239)]

  /** `str.lower()` on the ASCII letters. */
  function LowerChar(c: char): char {
    if 'A' <= c <= 'Z' then (c as int + 32) as char else c
  }

  function Lower(s: string): (r: string)
    ensures |r| == |s| && forall i :: 0 <= i < |s| ==> r[i] == LowerChar(s[i])
  {
    seq(|s|, i requires 0 <= i < |s| => LowerChar(s[i]))
  }

  /** `(color or "").strip().lower()`. */
  function ColorKey(color: Option<string>): string {
    Lower(Strip(color.GetOr("")))
  }

  /** `_project_color_rgb`: the palette entry for the normalized key, indigo otherwise. */
  function ProjectColorRgb(color: Option<string>): Rgb {
    var key := ColorKey(color);
    if key in Palette then Palette[key] else Palette["indigo"]
  }

  /** Every colour comes from the palette; a known key selects its entry, anything else indigo. */
  lemma ProjectColorFromPalette(color: Option<string>)
    ensures ProjectColorRgb(color) in Palette.Values
    ensures ColorKey(color) in Palette ==> ProjectColorRgb(color) == Palette[ColorKey(color)]
    ensures ColorKey(color) !in Palette ==> ProjectColorRgb(color) == (99, 102, 241)
  {
    assert "indigo" in Palette;
  }

  /** Case and surrounding blanks do not matter: " Sky " and "SKY" both give sky blue; no colour gives indigo. */
  lemma ProjectColorNormalizes()
    ensures ProjectColorRgb(Some(" Sky ")) == ProjectColorRgb(Some("SKY")) == (14, 165, 233)
    ensures ProjectColorRgb(None) == ProjectColorRgb(Some("")) == (99, 102, 241)
  {
    SkyKeys();
    assert "sky" in Palette && Palette["sky"] == (14, 165, 233);
    assert Strip("") == "" && Lower("") == "";
    assert "" !in Palette;
  }

  /** Both spellings normalize to the palette key "sky". */
  lemma SkyKeys()
    ensures ColorKey(Some(" Sky ")) == "sky" && ColorKey(Some("SKY")) == "sky"
  {
    assert Strip(" Sky ") == "Sky" by {
      assert StripLeft(" Sky ") == StripLeft("Sky ") == "Sky ";
      assert StripRight("Sky ") == StripRight("Sky") == "Sky";
    }
    assert Lower("Sky") == "sky";
    assert Strip("SKY") == "SKY";
    assert Lower("SKY") == "sky";
  }

  // ---------------------------------------------------------------------------
  // Member lookup
  // ---------------------------------------------------------------------------

  /**
    `get_org_member_user`: the stripped id must be non-blank, a member of the organization, and an
    active user; `users` maps a user id to `is_active`.
  */
  function OrgMemberUser(org: string, raw: Option<string>, memberships: map<(string, string), Role>,
                         users: map<string, bool>): Result<Option<string>>
  {
    var id := Strip(raw.GetOr(""));
    if id == "" then Ok(None)
    else
      match IntKey(JStr(id))
      case Err(msg) => Err(msg)
      case Ok(key) =>
        if (org, key) !in memberships then Ok(None)
        else if key in users && users[key] then Ok(Some(key))
        else Ok(None)
  }

  /**
    The lookup raises exactly for a non-blank id that is not an integer; otherwise it finds the
    active member whose primary key the id spells, in any spelling `int()` accepts.
  */
  lemma OrgMemberUserIff(org: string, raw: Option<string>, memberships: map<(string, string), Role>,
                         users: map<string, bool>)
    ensures var id := Strip(raw.GetOr(""));
      OrgMemberUser(org, raw, memberships, users).Err? <==> id != "" && ParseInt(id).None?
    ensures var id := Strip(raw.GetOr(""));
      var r := OrgMemberUser(org, raw, memberships, users);
      r.Ok? && r.value.Some? <==>
        id != "" && ParseInt(id).Some? &&
        var key := FormatInt(ParseInt(id).value);
        (org, key) in memberships && key in users && users[key]
    ensures var r := OrgMemberUser(org, raw, memberships, users);
      r.Ok? && r.value.Some? ==> ParseInt(r.value.value) == ParseInt(Strip(raw.GetOr("")))
  {
    var id := Strip(raw.GetOr(""));
    var r := OrgMemberUser(org, raw, memberships, users);
    if r.Ok? && r.value.Some? {
      ParseFormatInt(ParseInt(id).value);
    }
  }
}
