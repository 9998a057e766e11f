/** The client's like store (src/store/likes.ts; diploMatch/src/store/likes.ts is the same
    code with the API address written out): the ids of the liked topics' teams, mirrored to
    localStorage "likedProjects". */
module LikeStore {
  import opened Common
  import opened Browser

  /** An element of GET teams/likes/: the liked team. */
  datatype LikeBody = LikeBody(team: nat)

  /** `ids.filter(id => id !== x)` */
  function Without(ids: seq<nat>, x: nat): (r: seq<nat>)
    ensures x !in r
    ensures forall y :: y != x ==> (y in r <==> y in ids)
    ensures |r| <= |ids|
  {
    if ids == [] then []
    else (if ids[0] == x then [] else [ids[0]]) + Without(ids[1..], x)
  }

  /** Filtering out an id that is not there changes nothing. */
  lemma {:induction false} WithoutAbsent(ids: seq<nat>, x: nat)
    requires x !in ids
    ensures Without(ids, x) == ids
  {
    if ids != [] {
      assert ids[0] != x;
      WithoutAbsent(ids[1..], x);
      assert ids == [ids[0]] + ids[1..];
    }
  }

  /** Filtering distributes over concatenation. */
  lemma {:induction false} WithoutAppend(a: seq<nat>, b: seq<nat>, x: nat)
    ensures Without(a + b, x) == Without(a, x) + Without(b, x)
  {
    if a != [] {
      assert (a + b)[1..] == a[1..] + b;
      WithoutAppend(a[1..], b, x);
    } else {
      assert a + b == b;
    }
  }

  /** The list after a successful toggle of `x`. */
  function Toggled(ids: seq<nat>, x: nat): (r: seq<nat>)
    ensures x in r <==> x !in ids
    ensures forall y :: y != x ==> (y in r <==> y in ids)
  {
    if x in ids then Without(ids, x) else ids + [x]
  }

  /** Toggling twice restores every id's membership. */
  lemma ToggleTwiceRestoresMembership(ids: seq<nat>, x: nat)
    ensures forall y :: y in Toggled(Toggled(ids, x), x) <==> y in ids
  {
  }

  /** When the id was not liked, toggling twice restores the list itself. */
  lemma ToggleTwiceRestoresList(ids: seq<nat>, x: nat)
    requires x !in ids
    ensures Toggled(Toggled(ids, x), x) == ids
  {
    WithoutAppend(ids, [x], x);
    WithoutAbsent(ids, x);
    assert Without([x], x) == [];
  }

  /** A liked id that the list holds twice is removed with both occurrences, so toggling it
      back leaves it once: the list is not restored, only membership is. */
  lemma DuplicatesCollapse()
    ensures Toggled(Toggled([7, 7], 7), 7) == [7]
  {
    assert Without([7], 7) == [];
    assert Without([7, 7], 7) == [];
  }

  /** `res.data.map(like => like.team)` */
  function Teams(likes: seq<LikeBody>): (r: seq<nat>)
    ensures |r| == |likes|
    ensures forall i :: 0 <= i < |r| ==> r[i] == likes[i].team
  {
    seq(|likes|, i requires 0 <= i < |likes| => likes[i].team)
  }

  class Likes {
    var likedProjectIds: seq<nat>

    constructor ()
      ensures likedProjectIds == []
    {
      likedProjectIds := [];
    }

    /** `fetchLikes`: the list becomes the liked teams in reply order, and is mirrored; a
        failed call changes nothing. */
    method FetchLikes(storage: LocalStorage, reply: Reply<seq<LikeBody>>)
      modifies this`likedProjectIds, storage`likedProjects
      ensures reply.Answer? ==> likedProjectIds == Teams(reply.data) && storage.likedProjects == Some(likedProjectIds)
      ensures reply.Failed? ==> likedProjectIds == old(likedProjectIds) && storage.likedProjects == old(storage.likedProjects)
    {
      if reply.Answer? {
        likedProjectIds := Teams(reply.data);
        storage.SetLikedProjects(likedProjectIds);
      }
    }

    /** `toggleLike`: once the POST succeeds a liked id is dropped and another is pushed, and
        the list is mirrored; a failed POST changes nothing. */
    method ToggleLike(storage: LocalStorage, projectId: nat, posted: bool)
      modifies this`likedProjectIds, storage`likedProjects
      ensures posted ==> likedProjectIds == Toggled(old(likedProjectIds), projectId)
                         && storage.likedProjects == Some(likedProjectIds)
      ensures !posted ==> likedProjectIds == old(likedProjectIds) && storage.likedProjects == old(storage.likedProjects)
    {
      if !posted {
        return;
      }
      if projectId in likedProjectIds {
        likedProjectIds := Without(likedProjectIds, projectId);
      } else {
        likedProjectIds := likedProjectIds + [projectId];
      }
      storage.SetLikedProjects(likedProjectIds);
    }
  }
}
