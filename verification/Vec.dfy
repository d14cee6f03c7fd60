/** The growable array that collects contexts to be released. */
module Vec {
  const VEC_MAX: nat := 8

  class Vec<T(0)> {
    var data: array<T>
    var size: nat

    ghost predicate Valid()
      reads this
    {
      size <= data.Length
    }

    ghost function Contents(): seq<T>
      requires Valid()
      reads this, data
    {
      data[..size]
    }

    /** Nothing is allocated before the first append. */
    constructor ()
      ensures Valid() && fresh(data) && Contents() == [] && data.Length == 0
    {
      data := new T[0];
      size := 0;
    }

    /** Appends, growing to eight slots at first and doubling a full array after that. */
    method Append(x: T)
      requires Valid()
      modifies this, data
      ensures Valid() && (data == old(data) || fresh(data))
      ensures Contents() == old(Contents()) + [x]
      ensures data.Length == if old(size) < old(data.Length) then old(data.Length)
                             else if old(data.Length) == 0 then 8 else 2 * old(data.Length)
    {
      if size == data.Length {
        Grow();
      }
      data[size] := x;
      size := size + 1;
    }

    method Grow()
      requires Valid() && size == data.Length
      modifies this
      ensures Valid() && fresh(data) && size == old(size) && Contents() == old(Contents())
      ensures data.Length == if size == 0 then VEC_MAX else 2 * size
    {
      var bigger := new T[if size == 0 then VEC_MAX else size * 2];
      var i := 0;
      while i < size
        invariant i <= size && data == old(data) && size == old(size)
        invariant bigger[..i] == data[..i] == old(data[..i])
      {
        bigger[i] := data[i];
        i := i + 1;
      }
      data := bigger;
    }

    /** Forgets the elements and keeps the slots. */
    method Reset()
      modifies this
      ensures Valid() && Contents() == [] && data == old(data)
    {
      size := 0;
    }
  }
}
