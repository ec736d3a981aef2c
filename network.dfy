/** The connection counts of the `!network` embed. */
module Network {

  /** One entry of `psutil.net_connections()`; only its status is used. */
  datatype Connection = Connection(status: string)

  const Established: string := "ESTABLISHED"

  /** `[conn for conn in net_connections if conn.status == 'ESTABLISHED']`, in order. */
  function EstablishedOnly(conns: seq<Connection>): (r: seq<Connection>)
    ensures |r| <= |conns|
    ensures forall c :: c in r ==> c in conns && c.status == Established
    ensures forall c :: c in conns && c.status == Established ==> c in r
    ensures forall c :: multiset(r)[c] == if c.status == Established then multiset(conns)[c] else 0
  {
    if conns == [] then []
    else
      assert conns == [conns[0]] + conns[1..];
      if conns[0].status == Established then [conns[0]] + EstablishedOnly(conns[1..])
    else EstablishedOnly(conns[1..])
  }

  /** The "Established" number: never more than the "Total" number `len(net_connections)`. */
  function EstablishedCount(conns: seq<Connection>): (n: nat)
    ensures n <= |conns|
  {
    |EstablishedOnly(conns)|
  }

  /** The count splits over a concatenation. */
  lemma {:induction false} EstablishedCountAppend(a: seq<Connection>, b: seq<Connection>)
    ensures EstablishedCount(a + b) == EstablishedCount(a) + EstablishedCount(b)
  {
    if a != [] {
      assert (a + b)[1..] == a[1..] + b;
      EstablishedCountAppend(a[1..], b);
    } else {
      assert a + b == b;
    }
  }

  /** The two numbers are equal exactly when every connection is established. */
  lemma {:induction false} AllEstablished(conns: seq<Connection>)
    ensures EstablishedCount(conns) == |conns| <==> forall k :: 0 <= k < |conns| ==> conns[k].status == Established
  {
    if conns != [] {
      AllEstablished(conns[1..]);
      assert forall k :: 1 <= k < |conns| ==> conns[k] == conns[1..][k - 1];
    }
  }

  /** The "Established" number is 0 exactly when no connection is established. */
  lemma NoneEstablished(conns: seq<Connection>)
    ensures EstablishedCount(conns) == 0 <==> forall k :: 0 <= k < |conns| ==> conns[k].status != Established
  {
    if EstablishedCount(conns) == 0 {
      forall k | 0 <= k < |conns| ensures conns[k].status != Established {
        assert conns[k] in conns;
      }
    } else {
      var c := EstablishedOnly(conns)[0];
      assert c in EstablishedOnly(conns);
    }
  }
}
