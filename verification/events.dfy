/** The immutable envelope that carries one payload to the handlers. */
module Events {

  /** An event holds exactly one payload value in its public `data` field. */
  datatype Event<T> = Event(data: T) {

    /** Wraps a payload; it cannot fail and adds nothing beside the payload. */
    static function New(data: T): (e: Event<T>)
      ensures e.data == data
    {
      Event(data)
    }

    /** Read-only accessor: agrees with the public field, and an event value cannot change. */
    function GetData(): (d: T)
      ensures d == data
    {
      data
    }
  }

  /** Wrapping a payload and reading it back gives the payload. */
  lemma NewThenGetData<T>(d: T)
    ensures Event.New(d).GetData() == d
  {
  }

  /** Two events are equal exactly when their payloads are. */
  lemma NewInjective<T>(a: T, b: T)
    ensures Event.New(a) == Event.New(b) <==> a == b
  {
  }
}
