/** What the API's types look like on the wire: the members in order, their names and their values, and
    the rules their strings are held to. */
module JsonWire {
  import opened Wrappers
  import opened JsonTokens
  import opened JsonSchema
  import opened Requests

  // ---------- Names ----------

  function MemberNames(members: Members): seq<string> {
    match members case MNil => [] case MCons(name, _, rest) => [name] + MemberNames(rest)
  }

  /** The names of the fields, without the optional ones that are unset. */
  function NamesOf(fields: seq<Field>, slots: seq<Val>): seq<string> {
    if fields == [] || slots == [] then []
    else (if fields[0].required || slots[0].VSet? then [fields[0].name] else []) + NamesOf(fields[1..], slots[1..])
  }

  /** The encoder writes one member for each of these fields, in order. */
  lemma {:induction false} WritesNames(lv: Leaves, fields: seq<Field>, slots: seq<Val>)
    ensures MemberNames(MembersJson(lv, fields, slots)) == NamesOf(fields, slots)
  {
    if fields != [] && slots != [] { WritesNames(lv, fields[1..], slots[1..]); }
  }

  /** A value that is written with exactly these members. */
  ghost predicate Writes(sch: Schema, names: seq<string>) {
    forall lv: Leaves, v: Val :: Typed(lv, sch, v) ==>
      ToJson(lv, sch, v).JObj? && MemberNames(ToJson(lv, sch, v).members) == names
  }

  predicate AllRequired(fields: seq<Field>, names: seq<string>) {
    |fields| == |names| && forall i :: 0 <= i < |fields| ==> fields[i].required && fields[i].name == names[i]
  }

  lemma {:induction false} RequiredNames(fields: seq<Field>, names: seq<string>, slots: seq<Val>)
    requires AllRequired(fields, names) && |slots| == |fields|
    ensures NamesOf(fields, slots) == names
  {
    if fields != [] {
      RequiredNames(fields[1..], names[1..], slots[1..]);
      assert names == [names[0]] + names[1..];
    }
  }

  lemma WritesRequired(fields: seq<Field>, names: seq<string>)
    requires AllRequired(fields, names)
    ensures Writes(Obj(fields), names)
  {
    forall lv: Leaves, v: Val | Typed(lv, Obj(fields), v)
      ensures ToJson(lv, Obj(fields), v).JObj? && MemberNames(ToJson(lv, Obj(fields), v).members) == names
    {
      WritesNames(lv, fields, v.slots);
      RequiredNames(fields, names, v.slots);
    }
  }

  /** The members of the small answers. */
  lemma AnswerNames()
    ensures Writes(ROLE_ATTRIBUTE_SCHEMA, ["id", "name", "description"])
    ensures Writes(TEAM_MEMBERSHIP_SCHEMA, ["org_name", "team_name", "role"])
    ensures Writes(ERROR_RESPONSE_SCHEMA, ["error"]) && Writes(HEALTH_RESPONSE_SCHEMA, ["status"])
  {
    WritesRequired(ROLE_ATTRIBUTE_SCHEMA.fields, ["id", "name", "description"]);
    WritesRequired(TEAM_MEMBERSHIP_SCHEMA.fields, ["org_name", "team_name", "role"]);
    WritesRequired(ERROR_RESPONSE_SCHEMA.fields, ["error"]);
    WritesRequired(HEALTH_RESPONSE_SCHEMA.fields, ["status"]);
  }

  /** The members of the requests. */
  lemma RequestNames()
    ensures Writes(CREATE_PROJECT_REQUEST_SCHEMA, ["name", "description", "kind", "ownerIds", "ownerGroupIds"])
    ensures Writes(UPDATE_PROJECT_REQUEST_SCHEMA, ["name", "description", "ownerIds", "ownerGroupIds"])
    ensures Writes(CREATE_ROLE_REQUEST_SCHEMA, ["name", "description", "attributeIds"])
    ensures Writes(UPDATE_ROLE_REQUEST_SCHEMA, ["name", "description", "attributeIds"])
    ensures Writes(CREATE_USER_GROUP_REQUEST_SCHEMA, ["name", "description", "memberIds"])
    ensures Writes(UPDATE_USER_GROUP_REQUEST_SCHEMA, ["name", "description", "memberIds"])
    ensures Writes(CREATE_USER_REQUEST_SCHEMA, ["email"])
  {
    WritesRequired(CREATE_PROJECT_REQUEST_SCHEMA.fields, ["name", "description", "kind", "ownerIds", "ownerGroupIds"]);
    WritesRequired(UPDATE_PROJECT_REQUEST_SCHEMA.fields, ["name", "description", "ownerIds", "ownerGroupIds"]);
    WritesRequired(CREATE_ROLE_REQUEST_SCHEMA.fields, ["name", "description", "attributeIds"]);
    WritesRequired(UPDATE_ROLE_REQUEST_SCHEMA.fields, ["name", "description", "attributeIds"]);
    WritesRequired(CREATE_USER_GROUP_REQUEST_SCHEMA.fields, ["name", "description", "memberIds"]);
    WritesRequired(UPDATE_USER_GROUP_REQUEST_SCHEMA.fields, ["name", "description", "memberIds"]);
    WritesRequired(CREATE_USER_REQUEST_SCHEMA.fields, ["email"]);
  }

  // ---------- Whole answers ----------

  /** Members with these names and values, without those that have none. */
  function Listed(names: seq<string>, values: seq<Option<Json>>): Members
    requires |names| == |values|
  {
    if names == [] then MNil
    else
      match values[0]
      case Some(j) => MCons(names[0], j, Listed(names[1..], values[1..]))
      case None => Listed(names[1..], values[1..])
  }

  /** The encoder's members, from the member each field becomes. */
  lemma {:induction false} ListsMembers(lv: Leaves, fields: seq<Field>, slots: seq<Val>, names: seq<string>,
      values: seq<Option<Json>>)
    requires |fields| == |slots| == |names| == |values|
    requires forall i :: 0 <= i < |fields| ==> fields[i].name == names[i]
    requires forall i :: 0 <= i < |fields| ==> SlotJson(lv, fields[i], slots[i]) == values[i]
    ensures MembersJson(lv, fields, slots) == Listed(names, values)
  {
    if fields != [] { ListsMembers(lv, fields[1..], slots[1..], names[1..], values[1..]); }
  }

  function TimeJson(lv: Leaves, time: string): Option<Json> { Some(JStr(lv.encode(DateTime, time))) }

  lemma ProjectOnWire(lv: Leaves, id: string, name: string, description: string, kind: string, createdAt: string,
      updatedAt: string)
    ensures ToJson(lv, PROJECT_SCHEMA, VObj([VText(id), VText(name), VText(description), VText(kind),
                                             VFormatted(createdAt), VFormatted(updatedAt)])) ==
      JObj(Listed(["id", "name", "description", "kind", "createdAt", "updatedAt"],
                  [Some(JStr(id)), Some(JStr(name)), Some(JStr(description)), Some(JStr(kind)),
                   TimeJson(lv, createdAt), TimeJson(lv, updatedAt)]))
  {
    ListsMembers(lv, PROJECT_SCHEMA.fields, [VText(id), VText(name), VText(description), VText(kind),
                                             VFormatted(createdAt), VFormatted(updatedAt)],
                 ["id", "name", "description", "kind", "createdAt", "updatedAt"],
                 [Some(JStr(id)), Some(JStr(name)), Some(JStr(description)), Some(JStr(kind)),
                  TimeJson(lv, createdAt), TimeJson(lv, updatedAt)]);
  }

  lemma RoleOnWire(lv: Leaves, id: string, name: string, description: string, project: Val, attributes: seq<Val>,
      createdAt: string, updatedAt: string)
    ensures ToJson(lv, ROLE_SCHEMA, VObj([VText(id), VText(name), VText(description), project, VSlice(attributes),
                                          VFormatted(createdAt), VFormatted(updatedAt)])) ==
      JObj(Listed(["id", "name", "description", "project", "attributes", "createdAt", "updatedAt"],
                  [Some(JStr(id)), Some(JStr(name)), Some(JStr(description)), Some(ToJson(lv, PROJECT_SCHEMA, project)),
                   Some(JArr(ItemsJson(lv, ROLE_ATTRIBUTE_SCHEMA, attributes))), TimeJson(lv, createdAt),
                   TimeJson(lv, updatedAt)]))
  {
    ListsMembers(lv, ROLE_SCHEMA.fields, [VText(id), VText(name), VText(description), project, VSlice(attributes),
                                          VFormatted(createdAt), VFormatted(updatedAt)],
                 ["id", "name", "description", "project", "attributes", "createdAt", "updatedAt"],
                 [Some(JStr(id)), Some(JStr(name)), Some(JStr(description)), Some(ToJson(lv, PROJECT_SCHEMA, project)),
                  Some(JArr(ItemsJson(lv, ROLE_ATTRIBUTE_SCHEMA, attributes))), TimeJson(lv, createdAt),
                  TimeJson(lv, updatedAt)]);
  }

  lemma UserOnWire(lv: Leaves, id: string, email: string, roles: seq<Val>, createdAt: string, updatedAt: string)
    ensures ToJson(lv, USER_SCHEMA, VObj([VText(id), VText(email), VSlice(roles), VFormatted(createdAt),
                                          VFormatted(updatedAt)])) ==
      JObj(Listed(["id", "email", "roles", "createdAt", "updatedAt"],
                  [Some(JStr(id)), Some(JStr(email)), Some(JArr(ItemsJson(lv, ROLE_SCHEMA, roles))),
                   TimeJson(lv, createdAt), TimeJson(lv, updatedAt)]))
  {
    ListsMembers(lv, USER_SCHEMA.fields, [VText(id), VText(email), VSlice(roles), VFormatted(createdAt),
                                          VFormatted(updatedAt)],
                 ["id", "email", "roles", "createdAt", "updatedAt"],
                 [Some(JStr(id)), Some(JStr(email)), Some(JArr(ItemsJson(lv, ROLE_SCHEMA, roles))),
                  TimeJson(lv, createdAt), TimeJson(lv, updatedAt)]);
  }

  lemma UserGroupOnWire(lv: Leaves, id: string, name: string, description: string, project: Val, members: seq<Val>,
      createdAt: string, updatedAt: string)
    ensures ToJson(lv, USER_GROUP_SCHEMA, VObj([VText(id), VText(name), VText(description), project, VSlice(members),
                                                VFormatted(createdAt), VFormatted(updatedAt)])) ==
      JObj(Listed(["id", "name", "description", "project", "members", "createdAt", "updatedAt"],
                  [Some(JStr(id)), Some(JStr(name)), Some(JStr(description)), Some(ToJson(lv, PROJECT_SCHEMA, project)),
                   Some(JArr(ItemsJson(lv, USER_SCHEMA, members))), TimeJson(lv, createdAt), TimeJson(lv, updatedAt)]))
  {
    ListsMembers(lv, USER_GROUP_SCHEMA.fields, [VText(id), VText(name), VText(description), project, VSlice(members),
                                                VFormatted(createdAt), VFormatted(updatedAt)],
                 ["id", "name", "description", "project", "members", "createdAt", "updatedAt"],
                 [Some(JStr(id)), Some(JStr(name)), Some(JStr(description)), Some(ToJson(lv, PROJECT_SCHEMA, project)),
                  Some(JArr(ItemsJson(lv, USER_SCHEMA, members))), TimeJson(lv, createdAt), TimeJson(lv, updatedAt)]);
  }

  /** The dates are written when they are set. */
  lemma GitHubUserOnWire(lv: Leaves, id: string, number: string, username: string, email: string, name: string,
      avatar: string, createdAt: Option<string>, updatedAt: Option<string>)
    ensures ToJson(lv, GITHUB_USER_SCHEMA, VObj([VText(id), VFormatted(number), VText(username), VText(email),
                                                 VText(name), VFormatted(avatar), DateSlot(createdAt),
                                                 DateSlot(updatedAt)])) ==
      JObj(Listed(["id", "github_id", "username", "email", "name", "avatar_url", "created_at", "updated_at"],
                  [Some(JStr(id)), Some(JNum(lv.encode(Int64, number))), Some(JStr(username)), Some(JStr(email)),
                   Some(JStr(name)), Some(JStr(lv.encode(Uri, avatar))), DateJson(lv, createdAt),
                   DateJson(lv, updatedAt)]))
  {
    ListsMembers(lv, GITHUB_USER_SCHEMA.fields,
                 [VText(id), VFormatted(number), VText(username), VText(email), VText(name), VFormatted(avatar),
                  DateSlot(createdAt), DateSlot(updatedAt)],
                 ["id", "github_id", "username", "email", "name", "avatar_url", "created_at", "updated_at"],
                 [Some(JStr(id)), Some(JNum(lv.encode(Int64, number))), Some(JStr(username)), Some(JStr(email)),
                  Some(JStr(name)), Some(JStr(lv.encode(Uri, avatar))), DateJson(lv, createdAt),
                  DateJson(lv, updatedAt)]);
  }

  function DateSlot(date: Option<string>): Val { if date.Some? then VSet(VFormatted(date.value)) else VUnset }

  function DateJson(lv: Leaves, date: Option<string>): Option<Json> {
    if date.Some? then TimeJson(lv, date.value) else None
  }

  lemma AuthenticatedUserOnWire(lv: Leaves, user: Val, token: string, teams: seq<Val>)
    ensures ToJson(lv, AUTHENTICATED_USER_SCHEMA, VObj([user, VText(token), VSlice(teams)])) ==
      JObj(Listed(["user", "bearer_token", "team_memberships"],
                  [Some(ToJson(lv, GITHUB_USER_SCHEMA, user)), Some(JStr(token)),
                   Some(JArr(ItemsJson(lv, TEAM_MEMBERSHIP_SCHEMA, teams)))]))
  {
    ListsMembers(lv, AUTHENTICATED_USER_SCHEMA.fields, [user, VText(token), VSlice(teams)],
                 ["user", "bearer_token", "team_memberships"],
                 [Some(ToJson(lv, GITHUB_USER_SCHEMA, user)), Some(JStr(token)),
                  Some(JArr(ItemsJson(lv, TEAM_MEMBERSHIP_SCHEMA, teams)))]);
  }

  /** A slice that was never set is refused by the validator, but written like an empty one. */
  lemma UnsetSlice(lv: Leaves, elem: Schema)
    ensures Problems(lv, Arr(elem), Zero(lv, Arr(elem))) == Some(NilSlice)
    ensures ToJson(lv, Arr(elem), Zero(lv, Arr(elem))) == JArr(INil)
  {
  }

  // ---------- Leaves ----------

  /** A date or URI is a string that its format reads, a 64-bit integer a number that its format reads;
      anything else is refused. */
  lemma LeafExact(lv: Leaves, f: Format, recv: Val, j: Json)
    ensures Dec(lv, Formatted(f), recv, j) ==
      if (f == Int64 && !j.JNum?) || (f != Int64 && !j.JStr?) then Err(WrongType)
      else
        var text := if j.JNum? then j.digits else j.text;
        if lv.decode(f, text) == None then Err(BadFormat(f)) else Ok(VFormatted(lv.decode(f, text).value))
  {
  }

  // ---------- Rules ----------

  predicate TextIn(v: Val, values: seq<string>) { v.VText? && v.text in values }

  predicate IsEmail(lv: Leaves, v: Val) { v.VText? && lv.email(v.text) }

  /** A field whose schema holds no rule has nothing to report. */
  predicate Free(sch: Schema) { sch == ANY_STRING || sch.Formatted? || sch == Arr(ANY_STRING) }

  /** Of a struct's fields only the one at `i` has a rule. */
  lemma OneRule(lv: Leaves, fields: seq<Field>, v: Val, i: nat)
    requires Shaped(Obj(fields), v) && i < |fields|
    requires forall k :: 0 <= k < |fields| && k != i ==> Free(fields[k].sch)
    ensures LeavesValid(lv, Obj(fields), v) <==> LeavesValidSlot(lv, fields[i], v.slots[i])
    ensures ShapedSlot(fields[i], v.slots[i])
  {
    forall k | 0 <= k < |fields| && k != i ensures LeavesValidSlot(lv, fields[k], v.slots[k]) {
      FreeValid(lv, fields[k], v.slots[k]);
    }
  }

  lemma FreeValid(lv: Leaves, f: Field, slot: Val)
    requires Free(f.sch)
    ensures LeavesValidSlot(lv, f, slot)
  {
  }

  /** A project has one of two kinds. */
  lemma ProjectRule(lv: Leaves, v: Val)
    requires Shaped(PROJECT_SCHEMA, v)
    ensures LeavesValid(lv, PROJECT_SCHEMA, v) <==> TextIn(v.slots[3], ["personal", "shared"])
  {
    OneRule(lv, PROJECT_SCHEMA.fields, v, 3);
  }

  lemma CreateProjectRule(lv: Leaves, v: Val)
    requires Shaped(CREATE_PROJECT_REQUEST_SCHEMA, v)
    ensures LeavesValid(lv, CREATE_PROJECT_REQUEST_SCHEMA, v) <==> TextIn(v.slots[2], ["personal", "shared"])
  {
    OneRule(lv, CREATE_PROJECT_REQUEST_SCHEMA.fields, v, 2);
  }

  lemma CreateUserRule(lv: Leaves, v: Val)
    requires Shaped(CREATE_USER_REQUEST_SCHEMA, v)
    ensures LeavesValid(lv, CREATE_USER_REQUEST_SCHEMA, v) <==> IsEmail(lv, v.slots[0])
  {
    OneRule(lv, CREATE_USER_REQUEST_SCHEMA.fields, v, 0);
  }

  lemma TeamMembershipRule(lv: Leaves, v: Val)
    requires Shaped(TEAM_MEMBERSHIP_SCHEMA, v)
    ensures LeavesValid(lv, TEAM_MEMBERSHIP_SCHEMA, v) <==> TextIn(v.slots[2], ["member", "maintainer"])
  {
    OneRule(lv, TEAM_MEMBERSHIP_SCHEMA.fields, v, 2);
  }

  lemma GitHubUserRule(lv: Leaves, v: Val)
    requires Shaped(GITHUB_USER_SCHEMA, v)
    ensures LeavesValid(lv, GITHUB_USER_SCHEMA, v) <==> IsEmail(lv, v.slots[3])
  {
    OneRule(lv, GITHUB_USER_SCHEMA.fields, v, 3);
  }

  /** Nothing is asked of the other requests. */
  lemma OtherRequestsFree(lv: Leaves, sch: Schema, v: Val)
    requires sch in [UPDATE_PROJECT_REQUEST_SCHEMA, CREATE_ROLE_REQUEST_SCHEMA, UPDATE_ROLE_REQUEST_SCHEMA,
                     CREATE_USER_GROUP_REQUEST_SCHEMA, UPDATE_USER_GROUP_REQUEST_SCHEMA]
    requires Shaped(sch, v)
    ensures LeavesValid(lv, sch, v)
  {
    forall k | 0 <= k < |sch.fields| ensures LeavesValidSlot(lv, sch.fields[k], v.slots[k]) {
      FreeValid(lv, sch.fields[k], v.slots[k]);
    }
  }
}
