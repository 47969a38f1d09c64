/**
 * A user's record list: an e-mail address fixed at construction and a list
 * of data entries that only grows at its end. The list is a mutable list
 * object shared by reference with whoever passed it in and with every
 * caller of GetData, so it is an object of its own here.
 */
module UserRecords {

  /** A mutable list object, shared by reference. */
  class PyList<T> {
    var items: seq<T>

    constructor (items: seq<T>)
      ensures this.items == items
    {
      this.items := items;
    }

    /** list.append: the element goes at the end and the earlier ones stay as they were. */
    method Append(x: T)
      modifies this
      ensures items == old(items) + [x]
    {
      items := items + [x];
    }
  }

  /** UserData: the owner's e-mail address and the list of that user's entries. */
  class UserData<T> {
    const email: string
    var data: PyList<T>

    /**
     * Keeps the e-mail address; keeps the given list itself, not a copy, or
     * starts from a new empty list when none is given.
     */
    constructor (email: string, data: PyList?<T>)
      ensures this.email == email
      ensures data != null ==> this.data == data && unchanged(data)
      ensures data == null ==> fresh(this.data) && this.data.items == []
    {
      this.email := email;
      if data != null {
        this.data := data;
      } else {
        var empty := new PyList<T>([]);
        this.data := empty;
      }
    }

    /** The email property: the address given at construction. */
    function Email(): (e: string)
      reads this
      ensures e == email
    {
      email
    }

    /** add_data: appends one entry in place; the list object stays the same. */
    method AddData(entry: T)
      modifies data
      ensures data.items == old(data.items) + [entry]
      ensures |data.items| == |old(data.items)| + 1
      ensures forall i :: 0 <= i < |old(data.items)| ==> data.items[i] == old(data.items)[i]
      ensures data == old(data)
    {
      data.Append(entry);
    }

    /** get_data: the stored list object itself, so later appends show through it. */
    method GetData() returns (d: PyList<T>)
      ensures d == data
    {
      d := data;
    }
  }

  /**
   * A caller keeps the list it passed in; entries added through the
   * UserData afterwards appear in that same list, in call order, and
   * GetData hands back that list.
   */
  method SharedListScenario<T>(email: string, initial: seq<T>, first: T, second: T)
    returns (shared: PyList<T>, user: UserData<T>, got: PyList<T>)
    ensures got == shared && user.data == shared
    ensures shared.items == initial + [first, second]
    ensures user.Email() == email
  {
    shared := new PyList(initial);
    user := new UserData(email, shared);
    user.AddData(first);
    user.AddData(second);
    got := user.GetData();
  }

  /**
   * Any sequence of add_data calls on a UserData built from a caller's list
   * leaves that list equal to the initial entries followed by the added
   * ones, in call order.
   */
  method AddDataInOrder<T>(email: string, initial: seq<T>, entries: seq<T>)
    returns (shared: PyList<T>, user: UserData<T>)
    ensures user.data == shared
    ensures shared.items == initial + entries
    ensures user.Email() == email
  {
    shared := new PyList(initial);
    user := new UserData(email, shared);
    var i := 0;
    while i < |entries|
      invariant 0 <= i <= |entries|
      invariant user.data == shared && user.email == email
      invariant shared.items == initial + entries[..i]
    {
      user.AddData(entries[i]);
      assert entries[..i + 1] == entries[..i] + [entries[i]];
      i := i + 1;
    }
    assert entries[..i] == entries;
  }
}
