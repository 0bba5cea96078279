/** The window-property reader: one XGetWindowProperty request, and the
    owning wrapper (`x11_data<T>`) that hands the buffer Xlib allocated back
    to XFree when it goes out of scope. */
module X11Data {
  import opened CTypes
  import opened Optional

  type Atom = ulong
  type Window = ulong

  /** `Success` from X.h. */
  const Success: int := 0

  /** What one XGetWindowProperty call reports: its status and, when that is
      `Success`, the buffer Xlib allocated, already read as items of the
      caller's type (`None` when Xlib gave back a null pointer, as it does for
      a property the window does not have). On any other status the out
      parameters are not read, so the model carries none. */
  datatype Reply<T> = Reply(status: int, buffer: Option<seq<T>>)

  /** A block of memory Xlib allocated for a property value; `frees` counts
      the XFree calls made on it. */
  class XBuffer<T> {
    const items: seq<T>
    var frees: nat

    constructor (items: seq<T>)
      ensures this.items == items && frees == 0
    {
      this.items := items;
      frees := 0;
    }

    method XFree()
      modifies this
      ensures frees == old(frees) + 1
    {
      frees := frees + 1;
    }
  }

  /** `x11_data<T>`: a pointer to the buffer it owns (null for none) and the
      number of items in it. Copying and assignment are deleted in the
      source, so the only ways to make one are the three constructors. */
  class PropertyBuffer<T> {
    var properties: XBuffer?<T>
    var count: nat

    /** The range begin()..end() lies inside the buffer (or is empty when
        there is none). A moved-from object keeps its count, so it is not
        valid unless it was empty. */
    ghost predicate Valid()
      reads this
    {
      && (properties == null ==> count == 0)
      && (properties != null ==> count <= |properties.items|)
    }

    /** `x11_data()`. */
    constructor Empty()
      ensures Valid()
      ensures properties == null && count == 0
    {
      properties := null;
      count := 0;
    }

    /** `x11_data(props, num)`: takes ownership of `props`. */
    constructor (props: XBuffer?<T>, num: nat)
      ensures properties == props && count == num
    {
      properties := props;
      count := num;
    }

    /** `x11_data(x11_data&& other)`: takes over `other`'s buffer and sets
        `other.properties` to null; `other.count` is left as it was. */
    constructor Move(other: PropertyBuffer<T>)
      modifies other
      ensures properties == old(other.properties) && count == old(other.count)
      ensures other.properties == null && other.count == old(other.count)
    {
      properties := other.properties;
      count := other.count;
      new;
      other.properties := null;
    }

    /** `~x11_data()`: frees the buffer if, and only if, it holds one. */
    method Destroy()
      modifies properties
      ensures properties != null ==> properties.frees == old(properties.frees) + 1
    {
      if properties != null {
        properties.XFree();
      }
    }

    /** The items between begin() and end(). */
    function Elements(): (s: seq<T>)
      reads this
      requires Valid()
      ensures |s| == count
      ensures properties != null ==> s == properties.items[..count]
    {
      if properties == null then [] else properties.items[..count]
    }
  }

  /** The items a property query yields: none when the request failed or
      Xlib gave back no buffer, otherwise every item it reported. */
  function PropertyValue<T>(reply: Reply<T>): seq<T>
  {
    if reply.status != Success || reply.buffer.None? then [] else reply.buffer.value
  }

  /** `get_window_properties`: wraps the result of one XGetWindowProperty
      request in a fresh owner. A failed request gives an empty owner with no
      buffer; a successful one owns the buffer Xlib allocated, with the item
      count Xlib reported. */
  method GetWindowProperties<T>(reply: Reply<T>) returns (data: PropertyBuffer<T>)
    ensures fresh(data) && data.Valid()
    ensures data.properties != null ==> fresh(data.properties) && data.properties.frees == 0
    ensures reply.status != Success ==> data.properties == null && data.count == 0
    ensures data.properties != null <==> reply.status == Success && reply.buffer.Some?
    ensures data.properties != null ==> data.properties.items == reply.buffer.value
    ensures reply.status == Success && reply.buffer.Some? ==> data.count == |reply.buffer.value|
    ensures data.Elements() == PropertyValue(reply)
  {
    if reply.status != Success {
      data := new PropertyBuffer.Empty();
      return;
    }
    var props: XBuffer?<T> := null;
    var itemCount := 0;
    if reply.buffer.Some? {
      props := new XBuffer(reply.buffer.value);
      itemCount := |reply.buffer.value|;
    }
    data := new PropertyBuffer(props, itemCount);
  }

  /** The whole life of one query result when it is returned by moving it:
      the owner inside the query, the owner the caller receives and both
      destructors. The buffer, if Xlib allocated one, is freed exactly once;
      nothing else is ever freed. */
  method MovedResultFreedOnce<T>(reply: Reply<T>) returns (frees: nat)
    ensures frees == (if reply.status == Success && reply.buffer.Some? then 1 else 0)
  {
    var made := GetWindowProperties(reply);
    var buffer := made.properties;
    var returned := new PropertyBuffer.Move(made);
    made.Destroy();
    returned.Destroy();
    frees := if buffer == null then 0 else buffer.frees;
  }
}
