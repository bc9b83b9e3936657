/**
 * The list surgery behind RevokePermission and ChangePermissionLevel:
 * `list.remove`, `list.append`, and what they do to the owners, editors
 * and viewers lists of a map header.
 */
module PermissionLists {
  import opened Base
  import opened Roles
  import opened Entities

  /** `list.remove(x)` where `x` is present; the list itself where it is not. */
  function RemoveFirst(s: seq<string>, x: string): (r: seq<string>)
    ensures x !in s ==> r == s
    ensures x in s ==> |r| == |s| - 1
    ensures multiset(r) == multiset(s) - multiset{x}
  {
    if s == [] then []
    else
      assert s == [s[0]] + s[1..];
      if s[0] == x then s[1..]
      else [s[0]] + RemoveFirst(s[1..], x)
  }

  /** The permission list that a map role names. */
  function ListFor(m: MapRecord, role: Role): seq<string>
    requires IsMapRole(role)
  {
    match role
    case MapOwner => m.owners
    case MapEditor => m.editors
    case MapViewer => m.viewers
  }

  /**
   * The header after RevokePermission(role, user): the address leaves the
   * one list that `role` names; any other role changes nothing.
   */
  function Revoked(m: MapRecord, role: string, email: string): (r: MapRecord)
    ensures r.viewers == if role == Name(MapViewer) then RemoveFirst(m.viewers, email) else m.viewers
    ensures r.editors == if role == Name(MapEditor) then RemoveFirst(m.editors, email) else m.editors
    ensures r.owners == if role == Name(MapOwner) then RemoveFirst(m.owners, email) else m.owners
    ensures r == m.(owners := r.owners, editors := r.editors, viewers := r.viewers)
  {
    if role == Name(MapViewer) && email in m.viewers then m.(viewers := RemoveFirst(m.viewers, email))
    else if role == Name(MapEditor) && email in m.editors then m.(editors := RemoveFirst(m.editors, email))
    else if role == Name(MapOwner) && email in m.owners then m.(owners := RemoveFirst(m.owners, email))
    else m
  }

  /** The first half of ChangePermissionLevel: append the address to the target list unless it is there. */
  function Granted(m: MapRecord, role: Role, email: string): (r: MapRecord)
    requires IsMapRole(role)
    ensures email in ListFor(r, role)
    ensures forall other :: IsMapRole(other) ==>
      ListFor(r, other) == if other == role && email !in ListFor(m, role) then ListFor(m, role) + [email] else ListFor(m, other)
    ensures r == m.(owners := r.owners, editors := r.editors, viewers := r.viewers)
  {
    if role == MapViewer && email !in m.viewers then m.(viewers := m.viewers + [email])
    else if role == MapEditor && email !in m.editors then m.(editors := m.editors + [email])
    else if role == MapOwner && email !in m.owners then m.(owners := m.owners + [email])
    else m
  }

  /**
   * What ChangePermissionLevel promises, stated list by list: the target
   * list holds the address (added once if missing), every other list loses
   * one occurrence of it.
   */
  function ChangedLevel(m: MapRecord, role: Role, email: string): (r: MapRecord)
    requires IsMapRole(role)
    ensures email in ListFor(r, role)
    ensures multiset(ListFor(r, role)) == multiset(ListFor(m, role)) + (if email in ListFor(m, role) then multiset{} else multiset{email})
    ensures role != MapOwner ==> multiset(r.owners) == multiset(m.owners) - multiset{email}
    ensures role != MapEditor ==> multiset(r.editors) == multiset(m.editors) - multiset{email}
    ensures role != MapViewer ==> multiset(r.viewers) == multiset(m.viewers) - multiset{email}
    ensures r == m.(owners := r.owners, editors := r.editors, viewers := r.viewers)
  {
    RelistedMultiset(m.owners, role == MapOwner, email);
    RelistedMultiset(m.editors, role == MapEditor, email);
    RelistedMultiset(m.viewers, role == MapViewer, email);
    m.(owners := Relisted(m.owners, role == MapOwner, email),
       editors := Relisted(m.editors, role == MapEditor, email),
       viewers := Relisted(m.viewers, role == MapViewer, email))
  }

  function Relisted(l: seq<string>, isTarget: bool, email: string): seq<string> {
    if !isTarget then RemoveFirst(l, email)
    else if email in l then l
    else l + [email]
  }

  /** Relisting adds the address to the target list once, and revokes it from any other. */
  lemma RelistedMultiset(l: seq<string>, isTarget: bool, email: string)
    ensures isTarget ==> email in Relisted(l, isTarget, email)
    ensures isTarget ==>
      multiset(Relisted(l, isTarget, email)) == multiset(l) + (if email in l then multiset{} else multiset{email})
    ensures !isTarget ==> multiset(Relisted(l, isTarget, email)) == multiset(l) - multiset{email}
  {
    if isTarget && email !in l {
      assert multiset(l + [email]) == multiset(l) + multiset{email};
    }
  }

  /**
   * The header after the grant and the first `done` revocations of
   * ChangePermissionLevel's loop over viewer, editor, owner.
   */
  function RevokedUpTo(g: MapRecord, role: Role, email: string, done: nat): MapRecord {
    g.(viewers := if 0 < done && role != MapViewer then RemoveFirst(g.viewers, email) else g.viewers,
       editors := if 1 < done && role != MapEditor then RemoveFirst(g.editors, email) else g.editors,
       owners := if 2 < done && role != MapOwner then RemoveFirst(g.owners, email) else g.owners)
  }

  /** One turn of the loop: revoke the next role unless it is the one granted. */
  lemma RevokedUpToStep(g: MapRecord, role: Role, email: string, done: nat, next: Role)
    requires done < 3 && next == [MapViewer, MapEditor, MapOwner][done]
    ensures RevokedUpTo(g, role, email, done + 1) ==
      if next != role then Revoked(RevokedUpTo(g, role, email, done), Name(next), email)
      else RevokedUpTo(g, role, email, done)
  {
  }

  /** Grant followed by all three turns of the loop is ChangedLevel. */
  lemma RevokedAllIsChangedLevel(m: MapRecord, role: Role, email: string)
    requires IsMapRole(role)
    ensures RevokedUpTo(Granted(m, role, email), role, email, 3) == ChangedLevel(m, role, email)
  {
  }

  /** A list holds the address at most once. */
  predicate AtMostOnce(l: seq<string>, email: string) {
    multiset(l)[email] <= 1
  }

  /**
   * If each list held the address at most once, ChangePermissionLevel
   * leaves it exactly once in the target list and in no other, and leaves
   * every other address's entries alone.
   */
  lemma {:induction false} ChangedLevelPlacesEmail(m: MapRecord, role: Role, email: string)
    requires IsMapRole(role)
    requires AtMostOnce(m.owners, email) && AtMostOnce(m.editors, email) && AtMostOnce(m.viewers, email)
    ensures forall other :: IsMapRole(other) ==>
      multiset(ListFor(ChangedLevel(m, role, email), other))[email] == if other == role then 1 else 0
    ensures forall other, e :: IsMapRole(other) && e != email ==>
      multiset(ListFor(ChangedLevel(m, role, email), other))[e] == multiset(ListFor(m, other))[e]
  {
    var c := ChangedLevel(m, role, email);
    forall other | IsMapRole(other)
      ensures multiset(ListFor(c, other))[email] == if other == role then 1 else 0
      ensures forall e :: e != email ==> multiset(ListFor(c, other))[e] == multiset(ListFor(m, other))[e]
    {
      assert ListFor(c, other) == Relisted(ListFor(m, other), other == role, email);
      RelistedCounts(ListFor(m, other), other == role, email);
    }
  }

  /** One list's share of ChangedLevelPlacesEmail. */
  lemma RelistedCounts(l: seq<string>, isTarget: bool, email: string)
    requires AtMostOnce(l, email)
    ensures multiset(Relisted(l, isTarget, email))[email] == if isTarget then 1 else 0
    ensures forall e :: e != email ==> multiset(Relisted(l, isTarget, email))[e] == multiset(l)[e]
  {
    if isTarget && email !in l {
      assert multiset(l + [email]) == multiset(l) + multiset{email};
    }
  }

  /** Revoking the role just given leaves the address in none of the three lists. */
  lemma ChangeThenRevokeRemoves(m: MapRecord, role: Role, email: string)
    requires IsMapRole(role)
    requires AtMostOnce(m.owners, email) && AtMostOnce(m.editors, email) && AtMostOnce(m.viewers, email)
    ensures var r := Revoked(ChangedLevel(m, role, email), Name(role), email);
      email !in r.owners && email !in r.editors && email !in r.viewers
  {
    ChangedLevelPlacesEmail(m, role, email);
    var c := ChangedLevel(m, role, email);
    assert multiset(ListFor(c, MapOwner))[email] == (if role == MapOwner then 1 else 0);
    assert multiset(ListFor(c, MapEditor))[email] == (if role == MapEditor then 1 else 0);
    assert multiset(ListFor(c, MapViewer))[email] == (if role == MapViewer then 1 else 0);
  }

  /** Revoking from a list that holds the address at most once removes it from that list. */
  lemma RevokeRemovesSoleEntry(m: MapRecord, role: Role, email: string)
    requires IsMapRole(role) && AtMostOnce(ListFor(m, role), email)
    ensures email !in ListFor(Revoked(m, Name(role), email), role)
    ensures forall other :: IsMapRole(other) && other != role ==>
      ListFor(Revoked(m, Name(role), email), other) == ListFor(m, other)
  {
  }
}
