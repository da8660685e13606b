/** The send loop of the broadcaster: every transaction to every leader, transaction first. */
module FanOut {
  import opened Prelude

  datatype Send<+T> = Send(tx: T, position: nat, leader: SocketAddr)

  function Row<T>(tx: T, leaders: seq<SocketAddr>): (row: seq<Send<T>>)
  {
    seq(|leaders|, j requires 0 <= j < |leaders| => Send(tx, j, leaders[j]))
  }

  function Sends<T>(txs: seq<T>, leaders: seq<SocketAddr>): seq<Send<T>>
  {
    if txs == [] then [] else Sends(Init(txs), leaders) + Row(Last(txs), leaders)
  }

  /** The sends to one fan-out position. */
  function SeenBy<T>(sends: seq<Send<T>>, position: nat): seq<T>
  {
    if sends == [] then []
    else SeenBy(Init(sends), position) + (if Last(sends).position == position then [Last(sends).tx] else [])
  }

  /** The k-th send is transaction k / |leaders| to leader k % |leaders|. */
  lemma {:induction false} SendsAt<T>(txs: seq<T>, leaders: seq<SocketAddr>, i: nat, j: nat)
    requires i < |txs| && j < |leaders|
    ensures |Sends(txs, leaders)| == |txs| * |leaders|
    ensures i * |leaders| + j < |Sends(txs, leaders)|
    ensures Sends(txs, leaders)[i * |leaders| + j] == Send(txs[i], j, leaders[j])
  {
    SendsLength(txs, leaders);
    SendsLength(Init(txs), leaders);
    if i < |txs| - 1 {
      SendsAt(Init(txs), leaders, i, j);
    }
  }

  lemma {:induction false} SendsLength<T>(txs: seq<T>, leaders: seq<SocketAddr>)
    ensures |Sends(txs, leaders)| == |txs| * |leaders|
  {
    if txs != [] {
      SendsLength(Init(txs), leaders);
      assert |txs| * |leaders| == |Init(txs)| * |leaders| + |leaders|;
    }
  }

  lemma {:induction false} SeenByConcat<T>(a: seq<Send<T>>, b: seq<Send<T>>, position: nat)
    ensures SeenBy(a + b, position) == SeenBy(a, position) + SeenBy(b, position)
  {
    if b == [] {
      assert a + b == a;
    } else {
      assert Init(a + b) == a + Init(b);
      SeenByConcat(a, Init(b), position);
    }
  }

  lemma {:induction false} SeenByRow<T>(tx: T, leaders: seq<SocketAddr>, position: nat)
    ensures SeenBy(Row(tx, leaders), position) == if position < |leaders| then [tx] else []
  {
    if leaders != [] {
      assert Init(Row(tx, leaders)) == Row(tx, Init(leaders));
      SeenByRow(tx, Init(leaders), position);
    }
  }

  /** Every fan-out position is sent all transactions, once each and in order. */
  lemma {:induction false} EveryLeaderSeesAll<T>(txs: seq<T>, leaders: seq<SocketAddr>, position: nat)
    ensures SeenBy(Sends(txs, leaders), position) == if position < |leaders| then txs else []
  {
    if txs != [] {
      EveryLeaderSeesAll(Init(txs), leaders, position);
      SeenByConcat(Sends(Init(txs), leaders), Row(Last(txs), leaders), position);
      SeenByRow(Last(txs), leaders, position);
    }
  }
}
