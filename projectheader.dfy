/** The filter bar above the board (components/projects/kanban/ProjectHeader.tsx):
    a click on a member or a tag toggles it in the selection handed back to
    the board, the chosen members and tags are shown as chips, and members
    are drawn with their initials. */
module ProjectHeader {
  import opened Common
  import opened Types
  import Board

  /** `toggleUser` / `toggleTag`: a selected id is removed, every occurrence
      of it; any other id is appended. */
  function Toggle(selected: seq<string>, id: string): (r: seq<string>)
    ensures id in selected ==> id !in r
    ensures id !in selected ==> r == selected + [id]
    ensures forall x :: x != id ==> (x in r <==> x in selected)
  {
    if id in selected then
      var r := Filter(selected, x => x != id);
      forall x ensures x in r <==> x in selected && x != id {
        FilterMembership(selected, x => x != id, x);
      }
      r
    else selected + [id]
  }

  /** Toggling an id twice restores which ids are selected, and restores the
      list itself when the id was not selected. */
  lemma ToggleTwice(selected: seq<string>, id: string)
    ensures forall x :: x in Toggle(Toggle(selected, id), id) <==> x in selected
    ensures id !in selected ==> Toggle(Toggle(selected, id), id) == selected
  {
    if id !in selected {
      var once := selected + [id];
      FilterAppend(selected, [id], x => x != id);
      FilterAll(selected, x => x != id);
      assert Filter([id], x => x != id) == Filter([id][..0], x => x != id) + [];
    }
  }

  /** The chips: the team members whose id is selected, in team order; a
      selected id that is no member shows nothing. */
  function SelectedUsers(members: seq<User>, selected: seq<string>): seq<User> {
    Filter(members, (u: User) => u.uid in selected)
  }

  function SelectedTags(tags: seq<Tag>, selected: seq<string>): seq<Tag> {
    Filter(tags, (t: Tag) => t.id in selected)
  }

  lemma SelectedUsersSpec(members: seq<User>, selected: seq<string>)
    ensures forall u :: u in SelectedUsers(members, selected) <==> u in members && u.uid in selected
    ensures Subsequence(SelectedUsers(members, selected), members)
    ensures forall id :: id in selected && (forall u :: u in members ==> u.uid != id) ==>
      forall u :: u in SelectedUsers(members, selected) ==> u.uid != id
  {
    forall u ensures u in SelectedUsers(members, selected) <==> u in members && u.uid in selected {
      FilterMembership(members, (u: User) => u.uid in selected, u);
    }
    FilterSubsequence(members, (u: User) => u.uid in selected);
  }

  lemma SelectedTagsSpec(tags: seq<Tag>, selected: seq<string>)
    ensures forall t :: t in SelectedTags(tags, selected) <==> t in tags && t.id in selected
    ensures Subsequence(SelectedTags(tags, selected), tags)
  {
    forall t ensures t in SelectedTags(tags, selected) <==> t in tags && t.id in selected {
      FilterMembership(tags, (t: Tag) => t.id in selected, t);
    }
    FilterSubsequence(tags, (t: Tag) => t.id in selected);
  }

  /** "Limpiar selección" hands back the empty list: no chip is left, and the
      board's assignee and tag filters then let every task through. */
  lemma ClearedSelection(members: seq<User>, tags: seq<Tag>, t: Task)
    ensures SelectedUsers(members, []) == [] && SelectedTags(tags, []) == []
    ensures Board.MatchesUser(t, []) && Board.MatchesTags(t, [])
  {
    SelectedUsersSpec(members, []);
    SelectedTagsSpec(tags, []);
  }

  /** The header's `initials`: the name is trimmed first. */
  function MemberInitials(name: Option<string>): (r: string)
    ensures 1 <= |r| <= 2
  {
    Initials(Trim(name.GetOr("")))
  }

  /** A missing, empty or blank name shows "?"; a two-word name shows the
      upper-cased first letters of its words. */
  lemma MemberInitialsSpec(name: Option<string>, a: string, b: string)
    ensures name.None? || IsBlank(name.value) ==> MemberInitials(name) == "?"
    ensures a != [] && b != [] && ' ' !in a && ' ' !in b && !IsSpace(a[0]) && !IsSpace(b[|b| - 1]) ==>
      MemberInitials(Some(a + [' '] + b)) == [UpperChar(a[0]), UpperChar(b[0])]
  {
    InitialsEmpty();
    if a != [] && b != [] && ' ' !in a && ' ' !in b && !IsSpace(a[0]) && !IsSpace(b[|b| - 1]) {
      TrimUntouched(a + [' '] + b);
      assert a + [' '] + b == a + [' '] + b + [];
      InitialsTwoWords(a, b, []);
    }
  }

  lemma TrimUntouched(s: string)
    requires s != [] && !IsSpace(s[0]) && !IsSpace(s[|s| - 1])
    ensures Trim(s) == s
  {
  }
}
