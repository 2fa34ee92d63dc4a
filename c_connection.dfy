/**
 * deprecated/types/connection.c: a `Connection` from one node to another with an optional key
 * and lambda, and `Connections`, a buffer of `Connection *` that grows by `EXPAND_CAPACITY`.
 */
module CConnections {
  import opened Memory
  import opened CHeap
  import CKeys

  /** A `Connection *`. */
  class Connection {
    var key: CKeys.Key?
    var from: Node?
    var to: Node?
    var lambda: Lambda?

    /** `newConnection`: a freshly allocated connection passed through `initConnection`. */
    constructor()
      ensures key == null && from == null && to == null && lambda == null
    {
      key, from, to, lambda := null, null, null, null;
    }

    /** `initConnection`: key, both ends and the lambda are all null. */
    method Init()
      modifies this
      ensures key == null && from == null && to == null && lambda == null
    {
      key, from, to, lambda := null, null, null, null;
    }
  }

  /** `Connections`: `count` pointers in use out of `capacity` slots. */
  class Connections {
    var connection: array?<Connection?>
    var count: int
    var capacity: int

    /** The buffer is null exactly when it has no slots, and never holds more than it has room for. */
    predicate Valid()
      reads this
    {
      && 0 <= count <= capacity
      && (connection == null <==> capacity == 0)
      && (connection != null ==> connection.Length == capacity)
    }

    /** The pointers in use, in order. */
    function Contents(): (r: seq<Connection?>)
      requires Valid()
      reads this, connection
      ensures |r| == count
    {
      if connection == null then [] else connection[..count]
    }

    /** A `Connections` declared and passed to `initConnections`. */
    constructor()
      ensures Valid() && connection == null && count == 0 && capacity == 0
    {
      connection, count, capacity := null, 0, 0;
    }

    /** `initConnections`: no buffer, no elements, no room. */
    method Init()
      modifies this
      ensures Valid() && connection == null && count == 0 && capacity == 0 && Contents() == []
    {
      connection, count, capacity := null, 0, 0;
    }

    /** `destroyConnections`: the connections and the buffer are released; back to the initial state. */
    method Destroy()
      modifies this
      ensures Valid() && connection == null && count == 0 && capacity == 0 && Contents() == []
    {
      Init();
    }

    /**
     * `addConnection`: when full, the capacity grows by `EXPAND_CAPACITY` and the elements move to
     * the new buffer; then `c` goes in at the old count.
     */
    method AddConnection(c: Connection?)
      requires Valid()
      modifies this, connection
      ensures Valid() && count == old(count) + 1
      ensures capacity == if old(count) + 1 > old(capacity) then ExpandCapacity(old(capacity)) else old(capacity)
      ensures Contents() == old(Contents()) + [c]
    {
      if count + 1 > capacity {
        var oldCapacity := capacity;
        capacity := ExpandCapacity(oldCapacity);
        connection := Expand(connection, oldCapacity, capacity);
      }
      connection[count] := c;
      count := count + 1;
    }
  }
}
