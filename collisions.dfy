/**
 * Removal of bullets: the off-screen prune of `_update_bullets` and pygame's
 * `groupcollide(bullets, aliens, True, True)` as `_check_bullet_alien_collisions` calls it.
 */
module Collisions {
  import opened Geometry

  /** The bullets the prune loop keeps: those whose bottom is still below the top of the screen, in order. */
  function OnScreen(bullets: seq<Rect>): (kept: seq<Rect>)
    ensures |kept| <= |bullets|
    ensures forall i :: 0 <= i < |kept| ==> kept[i].Bottom() > 0
  {
    if bullets == [] then []
    else
      var last := bullets[|bullets| - 1];
      OnScreen(bullets[..|bullets| - 1]) + (if last.Bottom() > 0 then [last] else [])
  }

  /** Pruning one more bullet keeps it exactly when it is still on screen. */
  lemma OnScreenSnoc(bullets: seq<Rect>, b: Rect)
    ensures OnScreen(bullets + [b]) == OnScreen(bullets) + (if b.Bottom() > 0 then [b] else [])
  {
    assert (bullets + [b])[..|bullets|] == bullets;
  }

  /**
   * The prune keeps every copy of every bullet still on screen and nothing else: no bullet is
   * added, none on screen is lost, none off screen remains.
   */
  lemma {:induction false} OnScreenCounts(bullets: seq<Rect>)
    ensures forall b :: multiset(OnScreen(bullets))[b] == if b.Bottom() > 0 then multiset(bullets)[b] else 0
  {
    if bullets != [] {
      var last := bullets[|bullets| - 1];
      var front := bullets[..|bullets| - 1];
      assert bullets == front + [last];
      OnScreenCounts(front);
    }
  }

  /** The aliens of the group that one bullet collides with, in group order (`spritecollide`). */
  function HitBy(b: Rect, aliens: seq<Rect>): (hit: seq<Rect>) {
    if aliens == [] then []
    else (if Overlaps(b, aliens[0]) then [aliens[0]] else []) + HitBy(b, aliens[1..])
  }

  /** The aliens of the group that one bullet misses: those `spritecollide` leaves alive. */
  function Missed(b: Rect, aliens: seq<Rect>): (missed: seq<Rect>) {
    if aliens == [] then []
    else (if Overlaps(b, aliens[0]) then [] else [aliens[0]]) + Missed(b, aliens[1..])
  }

  /**
   * One bullet splits the group in two: the aliens it overlaps are killed and the others are left,
   * every alien going to exactly one side.
   */
  lemma {:induction false} HitSplit(b: Rect, aliens: seq<Rect>)
    ensures forall a :: a in HitBy(b, aliens) <==> a in aliens && Overlaps(b, a)
    ensures forall a :: a in Missed(b, aliens) <==> a in aliens && !Overlaps(b, a)
    ensures |HitBy(b, aliens)| + |Missed(b, aliens)| == |aliens|
  {
    if aliens != [] {
      HitSplit(b, aliens[1..]);
      assert aliens == [aliens[0]] + aliens[1..];
    }
  }

  /** One entry of the dictionary `groupcollide` returns: a bullet that hit, and the aliens it killed. */
  datatype Hit = Hit(bullet: Rect, killed: seq<Rect>)

  /** One bullet splits the group copy for copy: what it hits and what it misses make up the group. */
  lemma {:induction false} HitSplitCounts(b: Rect, aliens: seq<Rect>)
    ensures multiset(HitBy(b, aliens)) + multiset(Missed(b, aliens)) == multiset(aliens)
  {
    if aliens != [] {
      HitSplitCounts(b, aliens[1..]);
      assert aliens == [aliens[0]] + aliens[1..];
    }
  }

  /**
   * What `groupcollide` leaves: the surviving bullets and aliens, and the entries of the returned
   * dictionary in bullet order.
   */
  datatype Outcome = Outcome(bullets: seq<Rect>, aliens: seq<Rect>, hits: seq<Hit>)

  /**
   * Bullets are taken in group order; each one kills every alien still alive that it overlaps and,
   * if it killed any, is killed itself. A bullet that overlaps only aliens an earlier bullet has
   * already killed survives.
   */
  function GroupCollide(bullets: seq<Rect>, aliens: seq<Rect>): (o: Outcome)
    ensures |o.bullets| + |o.hits| == |bullets|
    decreases |bullets|
  {
    if bullets == [] then Outcome([], aliens, [])
    else
      var hit := HitBy(bullets[0], aliens);
      if hit == [] then
        var o := GroupCollide(bullets[1..], aliens);
        o.(bullets := [bullets[0]] + o.bullets)
      else
        var o := GroupCollide(bullets[1..], Missed(bullets[0], aliens));
        o.(hits := [Hit(bullets[0], hit)] + o.hits)
  }

  /** The keys of the collision dictionary: the bullets that hit, in order. */
  function Keys(hits: seq<Hit>): (keys: seq<Rect>) {
    if hits == [] then [] else [hits[0].bullet] + Keys(hits[1..])
  }

  /** All the aliens listed in the collision dictionary, entry after entry. */
  function Killed(hits: seq<Hit>): (all: seq<Rect>)
    ensures |all| == TotalHits(hits)
  {
    if hits == [] then [] else hits[0].killed + Killed(hits[1..])
  }

  /** The number of aliens listed in the collision dictionary. */
  function TotalHits(hits: seq<Hit>): (n: nat) {
    if hits == [] then 0 else |hits[0].killed| + TotalHits(hits[1..])
  }

  /**
   * As many aliens are removed as the dictionary lists.
   */
  lemma {:induction false} GroupCollideCounts(bullets: seq<Rect>, aliens: seq<Rect>)
    ensures |GroupCollide(bullets, aliens).aliens| + TotalHits(GroupCollide(bullets, aliens).hits) == |aliens|
  {
    if bullets != [] {
      var hit := HitBy(bullets[0], aliens);
      if hit == [] {
        GroupCollideCounts(bullets[1..], aliens);
      } else {
        var o := GroupCollide(bullets[1..], Missed(bullets[0], aliens));
        HitSplit(bullets[0], aliens);
        GroupCollideCounts(bullets[1..], Missed(bullets[0], aliens));
        assert ([Hit(bullets[0], hit)] + o.hits)[1..] == o.hits;
      }
    }
  }

  /**
   * Survivors come from the inputs, and every entry of the dictionary is a bullet of the group
   * together with a non-empty list of aliens of the group, each of which that bullet overlaps.
   */
  lemma {:induction false} GroupCollideFrom(bullets: seq<Rect>, aliens: seq<Rect>)
    ensures forall b :: b in GroupCollide(bullets, aliens).bullets ==> b in bullets
    ensures forall a :: a in GroupCollide(bullets, aliens).aliens ==> a in aliens
    ensures forall h :: h in GroupCollide(bullets, aliens).hits ==>
      h.bullet in bullets && h.killed != [] && forall a :: a in h.killed ==> a in aliens && Overlaps(h.bullet, a)
  {
    if bullets != [] {
      var b0 := bullets[0];
      var hit := HitBy(b0, aliens);
      HitSplit(b0, aliens);
      assert forall b :: b in bullets[1..] ==> b in bullets;
      if hit == [] {
        GroupCollideFrom(bullets[1..], aliens);
        assert GroupCollide(bullets, aliens).hits == GroupCollide(bullets[1..], aliens).hits;
      } else {
        var rest := Missed(b0, aliens);
        var o := GroupCollide(bullets[1..], rest);
        GroupCollideFrom(bullets[1..], rest);
        var hits := [Hit(b0, hit)] + o.hits;
        assert GroupCollide(bullets, aliens).hits == hits;
        forall h | h in hits
          ensures h.bullet in bullets && h.killed != [] &&
                  forall a :: a in h.killed ==> a in aliens && Overlaps(h.bullet, a)
        {
          if h != Hit(b0, hit) {
            assert h in o.hits;
          }
        }
      }
    }
  }

  /**
   * Every bullet either survives or is a key of the dictionary, exactly once for each copy: the
   * surviving bullets and the keys together are the bullets the pass started with.
   */
  lemma {:induction false} GroupCollideBullets(bullets: seq<Rect>, aliens: seq<Rect>)
    ensures multiset(GroupCollide(bullets, aliens).bullets) + multiset(Keys(GroupCollide(bullets, aliens).hits))
         == multiset(bullets)
  {
    if bullets != [] {
      var b0 := bullets[0];
      assert bullets == [b0] + bullets[1..];
      var hit := HitBy(b0, aliens);
      if hit == [] {
        var o := GroupCollide(bullets[1..], aliens);
        GroupCollideBullets(bullets[1..], aliens);
        assert GroupCollide(bullets, aliens) == o.(bullets := [b0] + o.bullets);
      } else {
        var o := GroupCollide(bullets[1..], Missed(b0, aliens));
        GroupCollideBullets(bullets[1..], Missed(b0, aliens));
        var hits := [Hit(b0, hit)] + o.hits;
        assert GroupCollide(bullets, aliens) == o.(hits := hits);
        assert hits[1..] == o.hits;
        assert Keys(hits) == [b0] + Keys(o.hits);
      }
    }
  }

  /** A bullet that overlaps no alien survives the pass. */
  lemma {:induction false} GroupCollideKeeps(bullets: seq<Rect>, aliens: seq<Rect>)
    ensures forall b :: b in bullets && (forall a :: a in aliens ==> !Overlaps(b, a)) ==>
      b in GroupCollide(bullets, aliens).bullets
  {
    if bullets != [] {
      var b0 := bullets[0];
      var hit := HitBy(b0, aliens);
      HitSplit(b0, aliens);
      if hit == [] {
        var o := GroupCollide(bullets[1..], aliens);
        GroupCollideKeeps(bullets[1..], aliens);
        assert GroupCollide(bullets, aliens).bullets == [b0] + o.bullets;
        forall b | b in bullets && (forall a :: a in aliens ==> !Overlaps(b, a))
          ensures b in [b0] + o.bullets
        {
          if b != b0 {
            assert b in bullets[1..];
          }
        }
      } else {
        var rest := Missed(b0, aliens);
        GroupCollideKeeps(bullets[1..], rest);
        forall b | b in bullets && (forall a :: a in aliens ==> !Overlaps(b, a))
          ensures b in GroupCollide(bullets[1..], rest).bullets
        {
          assert hit[0] in aliens && Overlaps(b0, hit[0]);
          assert b != b0;
          assert b in bullets[1..];
        }
      }
    }
  }

  /** No bullet that survives overlaps an alien that survives. */
  lemma {:induction false} GroupCollideSeparated(bullets: seq<Rect>, aliens: seq<Rect>)
    ensures forall b, a :: b in GroupCollide(bullets, aliens).bullets && a in GroupCollide(bullets, aliens).aliens ==>
      !Overlaps(b, a)
  {
    if bullets != [] {
      var b0 := bullets[0];
      var hit := HitBy(b0, aliens);
      if hit == [] {
        var o := GroupCollide(bullets[1..], aliens);
        GroupCollideSeparated(bullets[1..], aliens);
        GroupCollideFrom(bullets[1..], aliens);
        HitSplit(b0, aliens);
        var kept := [b0] + o.bullets;
        assert GroupCollide(bullets, aliens) == o.(bullets := kept);
        forall b, a | b in kept && a in o.aliens
          ensures !Overlaps(b, a)
        {
          if b == b0 {
            assert a in aliens && a !in hit;
          } else {
            assert b in o.bullets;
          }
        }
      } else {
        var o := GroupCollide(bullets[1..], Missed(b0, aliens));
        GroupCollideSeparated(bullets[1..], Missed(b0, aliens));
        assert GroupCollide(bullets, aliens) == o.(hits := [Hit(b0, hit)] + o.hits);
      }
    }
  }

  /** An alien that no bullet overlaps survives. */
  lemma {:induction false} GroupCollideSpares(bullets: seq<Rect>, aliens: seq<Rect>)
    ensures forall a :: a in aliens && (forall b :: b in bullets ==> !Overlaps(b, a)) ==>
      a in GroupCollide(bullets, aliens).aliens
  {
    if bullets != [] {
      var b0 := bullets[0];
      HitSplit(b0, aliens);
      assert forall b :: b in bullets[1..] ==> b in bullets;
      if HitBy(b0, aliens) == [] {
        GroupCollideSpares(bullets[1..], aliens);
      } else {
        GroupCollideSpares(bullets[1..], Missed(b0, aliens));
        forall a | a in aliens && (forall b :: b in bullets ==> !Overlaps(b, a))
          ensures a in Missed(b0, aliens)
        {
          assert b0 in bullets;
        }
      }
    }
  }

  /**
   * Every alien either survives or is listed in the dictionary, exactly once for each copy: the
   * surviving aliens and the killed ones together are the aliens the pass started with.
   */
  lemma {:induction false} GroupCollideAliens(bullets: seq<Rect>, aliens: seq<Rect>)
    ensures multiset(GroupCollide(bullets, aliens).aliens) + multiset(Killed(GroupCollide(bullets, aliens).hits))
         == multiset(aliens)
  {
    if bullets != [] {
      var b0 := bullets[0];
      var hit := HitBy(b0, aliens);
      if hit == [] {
        GroupCollideAliens(bullets[1..], aliens);
      } else {
        var rest := Missed(b0, aliens);
        var o := GroupCollide(bullets[1..], rest);
        GroupCollideAliens(bullets[1..], rest);
        HitSplitCounts(b0, aliens);
        var hits := [Hit(b0, hit)] + o.hits;
        assert GroupCollide(bullets, aliens) == o.(hits := hits);
        assert hits[1..] == o.hits;
        assert Killed(hits) == hit + Killed(o.hits);
      }
    }
  }

  /** An alien that some bullet overlaps is removed: no bullet of the group overlaps a survivor. */
  lemma {:induction false} GroupCollideKills(bullets: seq<Rect>, aliens: seq<Rect>)
    ensures forall a, b :: a in GroupCollide(bullets, aliens).aliens && b in bullets ==> !Overlaps(b, a)
  {
    if bullets != [] {
      var b0 := bullets[0];
      var hit := HitBy(b0, aliens);
      HitSplit(b0, aliens);
      var rest := if hit == [] then aliens else Missed(b0, aliens);
      var o := GroupCollide(bullets[1..], rest);
      GroupCollideKills(bullets[1..], rest);
      GroupCollideFrom(bullets[1..], rest);
      assert GroupCollide(bullets, aliens).aliens == o.aliens;
      forall a, b | a in o.aliens && b in bullets
        ensures !Overlaps(b, a)
      {
        if b == b0 {
          assert a in rest;
        } else {
          assert b in bullets[1..];
        }
      }
    }
  }

  /**
   * Each alien goes to the first bullet, in group order, that overlaps it: the bullet it is listed
   * with overlaps it, and no bullet before that one does. So a later bullet that overlaps only
   * aliens an earlier bullet has already killed is not spent.
   */
  lemma {:induction false} GroupCollideFirst(bullets: seq<Rect>, aliens: seq<Rect>)
    ensures forall h, a :: h in GroupCollide(bullets, aliens).hits && a in h.killed ==>
      exists j :: 0 <= j < |bullets| && bullets[j] == h.bullet &&
        forall k :: 0 <= k < j ==> !Overlaps(bullets[k], a)
  {
    if bullets != [] {
      var b0 := bullets[0];
      var hit := HitBy(b0, aliens);
      HitSplit(b0, aliens);
      var rest := if hit == [] then aliens else Missed(b0, aliens);
      var tail := bullets[1..];
      var o := GroupCollide(tail, rest);
      GroupCollideFirst(tail, rest);
      GroupCollideFrom(tail, rest);
      var hits := if hit == [] then o.hits else [Hit(b0, hit)] + o.hits;
      assert GroupCollide(bullets, aliens).hits == hits;
      forall h, a | h in hits && a in h.killed
        ensures exists j :: 0 <= j < |bullets| && bullets[j] == h.bullet &&
                            forall k :: 0 <= k < j ==> !Overlaps(bullets[k], a)
      {
        if hit != [] && h == Hit(b0, hit) {
          assert bullets[0] == h.bullet;
        } else {
          assert h in o.hits;
          var j' :| 0 <= j' < |tail| && tail[j'] == h.bullet &&
            forall k :: 0 <= k < j' ==> !Overlaps(tail[k], a);
          assert a in rest;
          assert bullets[j' + 1] == h.bullet;
          forall k | 0 <= k < j' + 1
            ensures !Overlaps(bullets[k], a)
          {
            if k > 0 {
              assert bullets[k] == tail[k - 1];
            }
          }
        }
      }
    }
  }

  /** Two bullets each overlapping only their own alien remove both aliens and both bullets. */
  lemma TwoSeparateHits(b1: Rect, b2: Rect, a1: Rect, a2: Rect)
    requires Overlaps(b1, a1) && Overlaps(b2, a2)
    requires !Overlaps(b1, a2) && !Overlaps(b2, a1)
    ensures GroupCollide([b1, b2], [a1, a2]) == Outcome([], [], [Hit(b1, [a1]), Hit(b2, [a2])])
    ensures TotalHits(GroupCollide([b1, b2], [a1, a2]).hits) == 2
  {
    assert [b1, b2][1..] == [b2] && [b2][1..] == [];
    assert [a1, a2][1..] == [a2] && [a2][1..] == [];
    assert HitBy(b1, [a1, a2]) == [a1] by {
      assert HitBy(b1, [a2]) == [] + HitBy(b1, []);
    }
    assert Missed(b1, [a1, a2]) == [a2] by {
      assert Missed(b1, [a2]) == [a2] + Missed(b1, []);
    }
    assert HitBy(b2, [a2]) == [a2] by {
      assert HitBy(b2, [a2]) == [a2] + HitBy(b2, []);
    }
    assert Missed(b2, [a2]) == [] by {
      assert Missed(b2, [a2]) == [] + Missed(b2, []);
    }
    var o2 := GroupCollide([b2], [a2]);
    assert o2 == Outcome([], [], [Hit(b2, [a2])]) by {
      assert GroupCollide([], []) == Outcome([], [], []);
    }
    var hits := [Hit(b1, [a1]), Hit(b2, [a2])];
    assert TotalHits(hits) == 1 + TotalHits(hits[1..]);
    assert hits[1..][1..] == [];
  }
}
