/**
 * The achievement notification panel (AchievementNotification.tsx): it keeps
 * its own list of visible notices, merges in the notices the shell passes
 * down, and closes one notice at a time while forwarding the id to the shell.
 */
module Notifications {
  import opened Common
  import opened App

  predicate IdVisible(visible: seq<Notice>, id: int) {
    exists a :: a in visible && a.id == id
  }

  /** The incoming notices whose id is not yet visible, in their incoming order. */
  function Unseen(visible: seq<Notice>, incoming: seq<Notice>): seq<Notice> {
    Filter(incoming, (a: Notice) => !IdVisible(visible, a.id))
  }

  /** The merge effect: the visible list, then every unseen incoming notice. */
  function Merge(visible: seq<Notice>, incoming: seq<Notice>): (r: seq<Notice>)
    ensures |visible| <= |r| && r[..|visible|] == visible
    ensures forall a :: a in r ==> a in visible || a in incoming
  {
    visible + Unseen(visible, incoming)
  }

  /** After the merge, every incoming id is visible, and the notices appended are exactly the unseen ones. */
  lemma MergeShowsAll(visible: seq<Notice>, incoming: seq<Notice>)
    ensures forall a :: a in incoming ==> IdVisible(Merge(visible, incoming), a.id)
    ensures forall a :: a in Merge(visible, incoming)[|visible|..] <==> a in incoming && !IdVisible(visible, a.id)
  {
    var r := Merge(visible, incoming);
    assert r[|visible|..] == Unseen(visible, incoming);
    forall a | a in incoming ensures IdVisible(r, a.id) {
      if !IdVisible(visible, a.id) {
        assert a in Unseen(visible, incoming);
      } else {
        var v :| v in visible && v.id == a.id;
        assert v in r;
      }
    }
  }

  /** Merging the same notices twice equals merging them once. */
  lemma MergeIdempotent(visible: seq<Notice>, incoming: seq<Notice>)
    ensures Merge(Merge(visible, incoming), incoming) == Merge(visible, incoming)
  {
    var r := Merge(visible, incoming);
    MergeShowsAll(visible, incoming);
    FilterNone(incoming, (a: Notice) => !IdVisible(r, a.id));
  }

  /** When every incoming id is already visible, the merge changes nothing (the `length > 0` test). */
  lemma MergeNothingNew(visible: seq<Notice>, incoming: seq<Notice>)
    requires forall a :: a in incoming ==> IdVisible(visible, a.id)
    ensures Merge(visible, incoming) == visible
  {
    FilterNone(incoming, (a: Notice) => !IdVisible(visible, a.id));
  }

  class NotificationPanel {
    var visible: seq<Notice>

    constructor ()
      ensures visible == []
    {
      visible := [];
    }

    /** The effect run when the shell's list changes. */
    method Receive(incoming: seq<Notice>)
      modifies this
      ensures visible == Merge(old(visible), incoming)
    {
      var shown := visible;
      var unseen := Filter(incoming, (a: Notice) => !IdVisible(shown, a.id));
      if |unseen| > 0 {
        visible := visible + unseen;
      }
    }

    /** `handleClose`: hide every notice with the id and hand the id to the shell's `onClose`. */
    method HandleClose(id: int) returns (forwarded: int)
      modifies this
      ensures visible == WithoutNotice(old(visible), id)
      ensures forwarded == id
    {
      visible := Filter(visible, (a: Notice) => a.id != id);
      forwarded := id;
    }
  }

  /**
   * Closing in the panel and in the shell agree: after the shell drops the
   * id as well, merging the shell's list back cannot bring the notice back.
   */
  lemma CloseThenMergeStaysClosed(visible: seq<Notice>, shell: seq<Notice>, id: int)
    ensures !IdVisible(Merge(WithoutNotice(visible, id), WithoutNotice(shell, id)), id)
  {
    var v := WithoutNotice(visible, id);
    var s := WithoutNotice(shell, id);
    var r := Merge(v, s);
    forall a | a in r ensures a.id != id {
      if a in v {
        var i :| 0 <= i < |v| && v[i] == a;
      } else {
        var i :| 0 <= i < |s| && s[i] == a;
      }
    }
  }
}
