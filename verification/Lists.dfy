/** Sequences: the order in which a hash table yields its keys, and concatenation of pieces. */
module Lists {

  /** The ids in `order` are distinct and are exactly `ids`. */
  ghost predicate IsOrder(order: seq<nat>, ids: set<nat>) {
    && (forall id :: id in order <==> id in ids)
    && (forall i, j :: 0 <= i < j < |order| ==> order[i] != order[j])
  }

  lemma OrderEmpty()
    ensures IsOrder([], {})
  {
  }

  lemma OrderGrows(order: seq<nat>, ids: set<nat>, id: nat)
    requires IsOrder(order, ids) && id !in ids
    ensures IsOrder(order + [id], ids + {id})
  {
  }

  lemma {:induction false} OrderSize(order: seq<nat>, ids: set<nat>)
    requires IsOrder(order, ids)
    ensures |order| == |ids|
    decreases |order|
  {
    if order == [] {
      assert ids == {};
    } else {
      var n := |order| - 1;
      assert IsOrder(order[..n], ids - {order[n]}) by {
        forall id ensures id in order[..n] <==> id in ids - {order[n]} {
          assert id in order <==> id in order[..n] || id == order[n];
        }
      }
      OrderSize(order[..n], ids - {order[n]});
    }
  }

  /** A hash table yields its keys in some order. */
  lemma {:induction false} OrderExists(ids: set<nat>) returns (order: seq<nat>)
    ensures IsOrder(order, ids)
    decreases ids
  {
    if ids == {} {
      order := [];
    } else {
      var id :| id in ids;
      var rest := OrderExists(ids - {id});
      OrderGrows(rest, ids - {id}, id);
      order := rest + [id];
      assert ids - {id} + {id} == ids;
    }
  }

  function Flat<T>(pieces: seq<seq<T>>): seq<T>
    decreases |pieces|
  {
    if pieces == [] then [] else pieces[0] + Flat(pieces[1..])
  }

  lemma {:induction false} FlatGrows<T>(pieces: seq<seq<T>>, piece: seq<T>)
    ensures Flat(pieces + [piece]) == Flat(pieces) + piece
    decreases |pieces|
  {
    if pieces == [] {
      assert (pieces + [piece])[1..] == [];
    } else {
      assert (pieces + [piece])[1..] == pieces[1..] + [piece];
      FlatGrows(pieces[1..], piece);
    }
  }
}
