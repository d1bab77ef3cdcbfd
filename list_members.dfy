/**
 * The members hook (`useListMembers`): the profiles of a list's owner and of
 * the users it is shared with, owner first. The three backend queries are
 * represented by their answers: the owner id of the list (or none), the
 * shared user ids (or none), and the profiles table the `in` query selects
 * from (or none).
 */
module ListMembers {
  import opened Wrappers
  import opened Database
  import opened Strings
  import opened Sequences

  /** `[list.owner_id, ...(shares?.map((s) => s.shared_with_id) ?? [])]`. */
  function UserIds(owner: string, shares: Option<seq<string>>): (ids: seq<string>)
    ensures |ids| >= 1 && ids[0] == owner
    ensures shares.Some? ==> ids[1..] == shares.value
    ensures shares.None? ==> ids == [owner]
  {
    [owner] + shares.GetOr([])
  }

  /** The owner's profile. */
  function IsOwner(owner: string): Profile -> bool {
    (p: Profile) => p.id == owner
  }

  function IsShared(owner: string): Profile -> bool {
    (p: Profile) => p.id != owner
  }

  /** The comparator: -1 when `a` is the owner, else 1 when `b` is, else 0. */
  function Compare(owner: string, a: Profile, b: Profile): (c: int)
    ensures -1 <= c <= 1
    ensures c < 0 <==> a.id == owner
    ensures c > 0 <==> a.id != owner && b.id == owner
  {
    if a.id == owner then -1 else if b.id == owner then 1 else 0
  }

  /**
   * The comparator as the relation "may stay before" that a stable sort
   * uses: `a` may precede `b` exactly when the comparator does not return a
   * positive number, so anything may precede a non-owner and only the owner
   * may precede the owner.
   */
  function OwnerBefore(owner: string): (le: (Profile, Profile) -> bool)
    ensures forall a: Profile, b: Profile :: le(a, b) <==> Compare(owner, a, b) <= 0
  {
    (a: Profile, b: Profile) => a.id == owner || b.id != owner
  }

  lemma OwnerBeforePreorder(owner: string)
    ensures TotalPreorder(OwnerBefore(owner))
  {
  }

  /** The stable sort of the fetched profiles with that comparator. */
  function OwnerFirst(profiles: seq<Profile>, owner: string): (r: seq<Profile>)
    ensures multiset(r) == multiset(profiles)
  {
    OwnerBeforePreorder(owner);
    SortBy(profiles, OwnerBefore(owner))
  }

  /**
   * Sorting owner-first is partitioning: the owner's profile, then every
   * other profile in the order the query returned them.
   */
  lemma {:induction false} OwnerFirstIsPartition(profiles: seq<Profile>, owner: string)
    ensures OwnerFirst(profiles, owner) == Filter(profiles, IsOwner(owner)) + Filter(profiles, IsShared(owner))
    decreases |profiles|
  {
    if profiles != [] {
      var n := |profiles| - 1;
      assert profiles == profiles[..n] + [profiles[n]];
      OwnerFirstIsPartition(profiles[..n], owner);
      PartitionStep(profiles[..n], profiles[n], owner);
    }
  }

  /** One more profile at the end of the query's answer keeps the sort a partition. */
  lemma PartitionStep(init: seq<Profile>, x: Profile, owner: string)
    requires OwnerFirst(init, owner) == Filter(init, IsOwner(owner)) + Filter(init, IsShared(owner))
    ensures OwnerFirst(init + [x], owner) == Filter(init + [x], IsOwner(owner)) + Filter(init + [x], IsShared(owner))
  {
    var le, mine, theirs := OwnerBefore(owner), IsOwner(owner), IsShared(owner);
    var a, b := Filter(init, mine), Filter(init, theirs);
    OwnerBeforePreorder(owner);
    SortBySnoc(init, x, le);
    assert OwnerFirst(init + [x], owner) == Insert(a + b, x, le);
    InsertIntoPartition(a, b, x, owner);
    FilterSnoc(init, x, mine);
    FilterSnoc(init, x, theirs);
    if x.id == owner {
      assert mine(x) && !theirs(x);
      assert Filter(init + [x], mine) == a + [x] && Filter(init + [x], theirs) == b;
    } else {
      assert !mine(x) && theirs(x);
      assert Filter(init + [x], mine) == a && Filter(init + [x], theirs) == b + [x];
    }
  }

  /** Inserting one more profile into an owner-first partition keeps it one. */
  lemma InsertIntoPartition(a: seq<Profile>, b: seq<Profile>, x: Profile, owner: string)
    requires forall i :: 0 <= i < |a| ==> a[i].id == owner
    requires forall i :: 0 <= i < |b| ==> b[i].id != owner
    ensures x.id == owner ==> Insert(a + b, x, OwnerBefore(owner)) == (a + [x]) + b
    ensures x.id != owner ==> Insert(a + b, x, OwnerBefore(owner)) == a + (b + [x])
  {
    if x.id == owner {
      InsertAfter(a, b, x, OwnerBefore(owner));
    } else {
      InsertAfter(a + b, [], x, OwnerBefore(owner));
      assert a + b + [] == a + b;
    }
  }

  /**
   * The owner's profile, when it was fetched, is shown first, and the other
   * members keep their relative order.
   */
  lemma OwnerShownFirst(profiles: seq<Profile>, owner: string, i: nat)
    requires i < |profiles| && profiles[i].id == owner
    ensures |OwnerFirst(profiles, owner)| > 0 && OwnerFirst(profiles, owner)[0].id == owner
    ensures Filter(OwnerFirst(profiles, owner), IsShared(owner)) == Filter(profiles, IsShared(owner))
  {
    OwnerFirstIsPartition(profiles, owner);
    FilterNonEmpty(profiles, IsOwner(owner), i);
    KeptInOrder(profiles, owner);
  }

  /** Whether or not the owner was fetched, the other members keep their relative order. */
  lemma KeptInOrder(profiles: seq<Profile>, owner: string)
    ensures Filter(OwnerFirst(profiles, owner), IsShared(owner)) == Filter(profiles, IsShared(owner))
  {
    var a, b := Filter(profiles, IsOwner(owner)), Filter(profiles, IsShared(owner));
    OwnerFirstIsPartition(profiles, owner);
    FilterConcat(a, b, IsShared(owner));
    FilterNoneKept(a, IsShared(owner));
    FilterAllKept(b, IsShared(owner));
  }

  /**
   * The profiles the `in('id', userIds)` query returns from the table, in
   * table order: every row whose id is among the ids, as often as the table
   * holds it, and no other row.
   */
  function Selected(table: seq<Profile>, ids: seq<string>): (r: seq<Profile>)
    ensures forall j :: 0 <= j < |r| ==> r[j].id in ids && r[j] in table
    ensures forall p: Profile :: multiset(r)[p] == if p.id in ids then multiset(table)[p] else 0
    ensures forall p: Profile :: p in table && p.id in ids ==> p in r
  {
    var matches := (p: Profile) => p.id in ids;
    FilterCount(table, matches);
    Filter(table, matches)
  }

  /** One mounted instance of the hook and the members it reports. */
  class MembersState {
    var members: seq<Profile>

    constructor ()
      ensures members == []
    {
      members := [];
    }

    /**
     * The effect for `listId`: no list clears the members; a list lookup
     * that returns nothing, or a failed profiles query, leaves them as they
     * were; otherwise they are the selected profiles, owner first.
     */
    method Load(listId: Option<string>, owner: Option<string>, shares: Option<seq<string>>, table: Option<seq<Profile>>)
      modifies this
      ensures !IsSet(listId) ==> members == []
      ensures IsSet(listId) && (owner.None? || table.None?) ==> members == old(members)
      ensures IsSet(listId) && owner.Some? && table.Some? ==>
        members == OwnerFirst(Selected(table.value, UserIds(owner.value, shares)), owner.value)
    {
      if !IsSet(listId) {
        members := [];
        return;
      }
      if owner.None? {
        return;
      }
      var userIds := UserIds(owner.value, shares);
      if table.Some? {
        var profiles := Selected(table.value, userIds);
        members := OwnerFirst(profiles, owner.value);
      }
    }
  }
}
