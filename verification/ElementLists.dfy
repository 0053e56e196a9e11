/** The growable array of a `config_list_t`. */
module ElementLists {

  const CHUNK_SIZE := 16

  class ElementList<T(0)> {
    var elements: array<T>
    var length: nat

    /** The array has room for whole chunks, so that there is room for the next element unless
        the length is a multiple of the chunk size. */
    predicate Valid()
      reads this
    {
      length <= elements.Length && elements.Length % CHUNK_SIZE == 0
    }

    ghost function Contents(): seq<T>
      reads this, elements
      requires Valid()
    {
      elements[..length]
    }

    constructor ()
      ensures Valid() && Contents() == [] && fresh(elements)
    {
      elements := new T[0];
      length := 0;
    }

    /** `__config_list_add`: if the last chunk is full the array moves to a larger one. */
    method Add(setting: T)
      requires Valid()
      modifies this, elements
      ensures Valid() && Contents() == old(Contents()) + [setting]
      ensures elements == old(elements) || fresh(elements)
    {
      if length % CHUNK_SIZE == 0 {
        var larger := new T[length + CHUNK_SIZE];
        for i := 0 to length
          modifies larger
          invariant larger[..i] == elements[..i]
        {
          larger[i] := elements[i];
        }
        elements := larger;
      }
      elements[length] := setting;
      length := length + 1;
    }

    /** `__config_list_remove`: the elements behind move one place down. */
    method Remove(idx: nat) returns (removed: T)
      requires Valid() && idx < length
      modifies this`length, elements
      ensures Valid() && removed == old(Contents())[idx]
      ensures Contents() == old(Contents())[..idx] + old(Contents())[idx + 1..]
    {
      removed := elements[idx];
      for i := idx to length - 1
        modifies elements
        invariant elements[..i] == old(Contents())[..idx] + old(Contents())[idx + 1..i + 1]
        invariant elements[i + 1..length] == old(Contents())[i + 1..]
      {
        assert elements[i + 1] == elements[i + 1..length][0] == old(Contents())[i + 1];
        ghost var rest := elements[i + 1..length];
        elements[i] := elements[i + 1];
        assert elements[i + 2..length] == rest[1..];
        assert elements[..i + 1] == elements[..i] + [old(Contents())[i + 1]];
      }
      length := length - 1;
      assert old(Contents())[idx + 1..length + 1] == old(Contents())[idx + 1..];
    }
  }
}
