/**
 * The change list the database comparer hands to the synchronizer, and the search that
 * sync_db (includes/class-stl-synchronizer.php, lines 191-292) runs to find the change
 * recorded for one requested (table, id) pair.
 *
 * The list comes in three shapes, searched in a fixed order and first match wins:
 * post-type groups (post type, group, section, record), then content groups (group,
 * section, record), then the flat per-table lists. A section matches the requested table
 * under its own name or through the aliases of SectionMatches.
 *
 * Ids are compared as strings with exact equality; the model keeps ids in a canonical
 * string form instead of reproducing PHP's loose `==`.
 */
module ChangeLists {
  import opened Wrappers

  type Id = string

  /** The "type" of a change; any other label falls through to the unknown-type branch.
      ChangeTypeOf is how a label is read into this type, and the labels it reads as
      OtherType are exactly those other than "added", "modified" and "deleted". */
  datatype ChangeType = Added | Modified | Deleted | OtherType(text: string)

  /** The label of a change record, as the `switch` statements compare it. */
  function ChangeTypeOf(name: string): (t: ChangeType)
    ensures t == Added <==> name == "added"
    ensures t == Modified <==> name == "modified"
    ensures t == Deleted <==> name == "deleted"
    ensures t.OtherType? ==> t.text == name
  {
    if name == "added" then Added
    else if name == "modified" then Modified
    else if name == "deleted" then Deleted
    else OtherType(name)
  }

  datatype ChangeRecord = ChangeRecord(kind: ChangeType, id: Id)

  /** One entry of a group's "changes" array: a section name and its records, in order. */
  datatype Section = Section(name: string, records: seq<ChangeRecord>)

  datatype Group = Group(changes: seq<Section>)

  datatype PostType = PostType(postType: string, groups: seq<Group>)

  /** The three shapes; a missing "post_type_groups" or "content_groups" key is the
      empty sequence, which the search treats the same way. */
  datatype DbChanges = DbChanges(
    postTypeGroups: seq<PostType>,
    contentGroups: seq<Group>,
    tables: map<string, seq<ChangeRecord>>)

  datatype Shape = PostTypeGroups | ContentGroups | FlatList

  datatype Lookup = NotFound | Found(shape: Shape, change: ChangeRecord)

  /** The section test of lines 202-204 and 244-246. */
  predicate SectionMatches(table: string, section: string) {
    || section == table
    || (table == "posts" && (section == "attachments" || section == "child_posts"))
    || (table == "postmeta" && section == "attachment_meta")
  }

  // ---------------------------------------------------------------------------
  // The search, as functions
  // ---------------------------------------------------------------------------

  /** The first record of a list whose id equals `id`. */
  function FirstWithId(records: seq<ChangeRecord>, id: Id): (r: Option<ChangeRecord>)
    ensures r.Some? <==> exists k :: 0 <= k < |records| && records[k].id == id
    ensures r.Some? ==> exists k :: 0 <= k < |records| && records[k] == r.value && records[k].id == id &&
                                    forall j :: 0 <= j < k ==> records[j].id != id
    decreases |records|
  {
    if records == [] then None
    else if records[0].id == id then Some(records[0])
    else
      var rest := FirstWithId(records[1..], id);
      assert forall k :: 0 < k < |records| ==> records[k] == records[1..][k - 1];
      rest
  }

  function FirstInSections(sections: seq<Section>, table: string, id: Id): Option<ChangeRecord>
    decreases |sections|
  {
    if sections == [] then None
    else
      var here := if SectionMatches(table, sections[0].name) then FirstWithId(sections[0].records, id) else None;
      if here.Some? then here else FirstInSections(sections[1..], table, id)
  }

  function FirstInGroups(groups: seq<Group>, table: string, id: Id): Option<ChangeRecord>
    decreases |groups|
  {
    if groups == [] then None
    else
      var here := FirstInSections(groups[0].changes, table, id);
      if here.Some? then here else FirstInGroups(groups[1..], table, id)
  }

  function FirstInPostTypes(postTypes: seq<PostType>, table: string, id: Id): Option<ChangeRecord>
    decreases |postTypes|
  {
    if postTypes == [] then None
    else
      var here := FirstInGroups(postTypes[0].groups, table, id);
      if here.Some? then here else FirstInPostTypes(postTypes[1..], table, id)
  }

  /** The whole lookup of sync_db: post-type groups, then content groups, then the flat list. */
  function Locate(changes: DbChanges, table: string, id: Id): Lookup {
    var p := FirstInPostTypes(changes.postTypeGroups, table, id);
    if p.Some? then Found(PostTypeGroups, p.value)
    else
      var c := FirstInGroups(changes.contentGroups, table, id);
      if c.Some? then Found(ContentGroups, c.value)
      else
        var f := if table in changes.tables then FirstWithId(changes.tables[table], id) else None;
        if f.Some? then Found(FlatList, f.value) else NotFound
  }

  // ---------------------------------------------------------------------------
  // The reference: one flat list of candidate records
  // ---------------------------------------------------------------------------

  /** The records of every matching section, in iteration order. */
  function SectionCandidates(sections: seq<Section>, table: string): seq<ChangeRecord>
    decreases |sections|
  {
    if sections == [] then []
    else (if SectionMatches(table, sections[0].name) then sections[0].records else [])
         + SectionCandidates(sections[1..], table)
  }

  function GroupCandidates(groups: seq<Group>, table: string): seq<ChangeRecord>
    decreases |groups|
  {
    if groups == [] then [] else SectionCandidates(groups[0].changes, table) + GroupCandidates(groups[1..], table)
  }

  function PostTypeCandidates(postTypes: seq<PostType>, table: string): seq<ChangeRecord>
    decreases |postTypes|
  {
    if postTypes == [] then [] else GroupCandidates(postTypes[0].groups, table) + PostTypeCandidates(postTypes[1..], table)
  }

  /** Every candidate record for a table, in the order the three shapes are searched. */
  function AllCandidates(changes: DbChanges, table: string): seq<ChangeRecord> {
    PostTypeCandidates(changes.postTypeGroups, table)
    + GroupCandidates(changes.contentGroups, table)
    + (if table in changes.tables then changes.tables[table] else [])
  }

  /** The first match in a concatenation is the first match of the left part, if any. */
  lemma {:induction false} FirstWithIdAppend(a: seq<ChangeRecord>, b: seq<ChangeRecord>, id: Id)
    ensures FirstWithId(a + b, id) == if FirstWithId(a, id).Some? then FirstWithId(a, id) else FirstWithId(b, id)
    decreases |a|
  {
    if a == [] {
      assert a + b == b;
    } else {
      assert (a + b)[0] == a[0];
      assert (a + b)[1..] == a[1..] + b;
      FirstWithIdAppend(a[1..], b, id);
    }
  }

  /** Searching the sections of a group, with the early exit, finds the first record with
      the id among the records of the matching sections taken in order. */
  lemma {:induction false} SectionSearchIsFlatSearch(sections: seq<Section>, table: string, id: Id)
    ensures FirstInSections(sections, table, id) == FirstWithId(SectionCandidates(sections, table), id)
    decreases |sections|
  {
    if sections != [] {
      SectionSearchIsFlatSearch(sections[1..], table, id);
      var head := if SectionMatches(table, sections[0].name) then sections[0].records else [];
      FirstWithIdAppend(head, SectionCandidates(sections[1..], table), id);
    }
  }

  lemma {:induction false} GroupSearchIsFlatSearch(groups: seq<Group>, table: string, id: Id)
    ensures FirstInGroups(groups, table, id) == FirstWithId(GroupCandidates(groups, table), id)
    decreases |groups|
  {
    if groups != [] {
      GroupSearchIsFlatSearch(groups[1..], table, id);
      SectionSearchIsFlatSearch(groups[0].changes, table, id);
      FirstWithIdAppend(SectionCandidates(groups[0].changes, table), GroupCandidates(groups[1..], table), id);
    }
  }

  lemma {:induction false} PostTypeSearchIsFlatSearch(postTypes: seq<PostType>, table: string, id: Id)
    ensures FirstInPostTypes(postTypes, table, id) == FirstWithId(PostTypeCandidates(postTypes, table), id)
    decreases |postTypes|
  {
    if postTypes != [] {
      PostTypeSearchIsFlatSearch(postTypes[1..], table, id);
      GroupSearchIsFlatSearch(postTypes[0].groups, table, id);
      FirstWithIdAppend(GroupCandidates(postTypes[0].groups, table), PostTypeCandidates(postTypes[1..], table), id);
    }
  }

  /** The three-shape lookup is the first record with the id among all candidates taken in
      precedence order; the shape reported is the first of the three that holds one. */
  lemma LocateIsFirstCandidate(changes: DbChanges, table: string, id: Id)
    ensures var p := FirstWithId(PostTypeCandidates(changes.postTypeGroups, table), id);
            var g := FirstWithId(GroupCandidates(changes.contentGroups, table), id);
            var f := FirstWithId(if table in changes.tables then changes.tables[table] else [], id);
            Locate(changes, table, id)
              == if p.Some? then Found(PostTypeGroups, p.value)
                 else if g.Some? then Found(ContentGroups, g.value)
                 else if f.Some? then Found(FlatList, f.value)
                 else NotFound
    ensures Locate(changes, table, id).Found? <==> FirstWithId(AllCandidates(changes, table), id).Some?
    ensures Locate(changes, table, id).Found? ==>
              Locate(changes, table, id).change == FirstWithId(AllCandidates(changes, table), id).value
  {
    var p := PostTypeCandidates(changes.postTypeGroups, table);
    var g := GroupCandidates(changes.contentGroups, table);
    var f := if table in changes.tables then changes.tables[table] else [];
    PostTypeSearchIsFlatSearch(changes.postTypeGroups, table, id);
    GroupSearchIsFlatSearch(changes.contentGroups, table, id);
    FirstWithIdAppend(p, g + f, id);
    FirstWithIdAppend(g, f, id);
    assert AllCandidates(changes, table) == p + (g + f);
  }

  /** A match in the post-type groups decides the lookup: the content groups and the flat
      lists are not consulted. */
  lemma PostTypeMatchPreempts(c1: DbChanges, c2: DbChanges, table: string, id: Id)
    requires c1.postTypeGroups == c2.postTypeGroups
    requires FirstInPostTypes(c1.postTypeGroups, table, id).Some?
    ensures Locate(c1, table, id) == Locate(c2, table, id)
    ensures Locate(c1, table, id).shape == PostTypeGroups
  {
  }

  /** Failing the post-type groups, a match in the content groups decides the lookup: the
      flat lists are not consulted. */
  lemma ContentMatchPreempts(c1: DbChanges, c2: DbChanges, table: string, id: Id)
    requires c1.postTypeGroups == c2.postTypeGroups && c1.contentGroups == c2.contentGroups
    requires FirstInPostTypes(c1.postTypeGroups, table, id).None?
    requires FirstInGroups(c1.contentGroups, table, id).Some?
    ensures Locate(c1, table, id) == Locate(c2, table, id)
    ensures Locate(c1, table, id).shape == ContentGroups
  {
  }

  /** A request for `posts` finds a record filed under an "attachments" section even though
      no section is named "posts". */
  lemma AttachmentAliasExample(kind: ChangeType, flat: map<string, seq<ChangeRecord>>)
    ensures var rec := ChangeRecord(kind, "7");
            var changes := DbChanges([PostType("attachment", [Group([Section("attachments", [rec])])])], [], flat);
            Locate(changes, "posts", "7") == Found(PostTypeGroups, rec)
  {
  }

  // ---------------------------------------------------------------------------
  // The search, as the loops of sync_db
  // ---------------------------------------------------------------------------

  /** The innermost loop: the first record of a section with the requested id. */
  method SearchSection(records: seq<ChangeRecord>, id: Id) returns (r: Option<ChangeRecord>)
    ensures r == FirstWithId(records, id)
  {
    var i := 0;
    while i < |records|
      invariant 0 <= i <= |records|
      invariant FirstWithId(records[i..], id) == FirstWithId(records, id)
    {
      if records[i].id == id {
        return Some(records[i]);
      }
      assert records[i..][1..] == records[i + 1..];
      i := i + 1;
    }
    return None;
  }

  /** The loop over the sections of one group. */
  method SearchSections(sections: seq<Section>, table: string, id: Id) returns (r: Option<ChangeRecord>)
    ensures r == FirstInSections(sections, table, id)
  {
    var i := 0;
    while i < |sections|
      invariant 0 <= i <= |sections|
      invariant FirstInSections(sections[i..], table, id) == FirstInSections(sections, table, id)
    {
      if SectionMatches(table, sections[i].name) {
        var found := SearchSection(sections[i].records, id);
        if found.Some? {
          return found;
        }
      }
      assert sections[i..][1..] == sections[i + 1..];
      i := i + 1;
    }
    return None;
  }

  /** The loop over groups, for content_groups and for the groups of one post type. */
  method SearchGroups(groups: seq<Group>, table: string, id: Id) returns (r: Option<ChangeRecord>)
    ensures r == FirstInGroups(groups, table, id)
  {
    var i := 0;
    while i < |groups|
      invariant 0 <= i <= |groups|
      invariant FirstInGroups(groups[i..], table, id) == FirstInGroups(groups, table, id)
    {
      var found := SearchSections(groups[i].changes, table, id);
      if found.Some? {
        return found;
      }
      assert groups[i..][1..] == groups[i + 1..];
      i := i + 1;
    }
    return None;
  }

  /** The outermost loop over post_type_groups. */
  method SearchPostTypes(postTypes: seq<PostType>, table: string, id: Id) returns (r: Option<ChangeRecord>)
    ensures r == FirstInPostTypes(postTypes, table, id)
  {
    var i := 0;
    while i < |postTypes|
      invariant 0 <= i <= |postTypes|
      invariant FirstInPostTypes(postTypes[i..], table, id) == FirstInPostTypes(postTypes, table, id)
    {
      var found := SearchGroups(postTypes[i].groups, table, id);
      if found.Some? {
        return found;
      }
      assert postTypes[i..][1..] == postTypes[i + 1..];
      i := i + 1;
    }
    return None;
  }

  /** The three searches of sync_db in their order, stopping at the first that finds the id. */
  method LocateChange(changes: DbChanges, table: string, id: Id) returns (r: Lookup)
    ensures r == Locate(changes, table, id)
  {
    var found := SearchPostTypes(changes.postTypeGroups, table, id);
    if found.Some? {
      return Found(PostTypeGroups, found.value);
    }
    found := SearchGroups(changes.contentGroups, table, id);
    if found.Some? {
      return Found(ContentGroups, found.value);
    }
    if table in changes.tables {
      found := SearchSection(changes.tables[table], id);
      if found.Some? {
        return Found(FlatList, found.value);
      }
    }
    return NotFound;
  }
}
