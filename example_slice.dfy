/** The example slice: one fetch whose three cases fill `{data, status, error}`. */
module ExampleSlice {
  import opened Lifecycle

  datatype ExampleItem = ExampleItem(id: int, name: string)

  const Fallback: string := "Something went wrong"

  class ExampleStore {
    var data: seq<ExampleItem>
    var status: FetchStatus
    var error: Option<string>

    /** A failed fetch always leaves a message behind. */
    predicate Valid()
      reads this
    {
      status == Failed ==> error.Some?
    }

    /** `initialState` */
    constructor ()
      ensures Valid()
      ensures data == [] && status == Idle && error == None
    {
      data := [];
      status := Idle;
      error := None;
    }

    /** `fetchExampleData.pending`: only the status moves; an earlier error stays. */
    method FetchPending()
      requires Valid()
      modifies this
      ensures Valid()
      ensures status == Loading && data == old(data) && error == old(error)
    {
      status := Loading;
    }

    /** `fetchExampleData.fulfilled`: an earlier error also stays. */
    method FetchFulfilled(payload: seq<ExampleItem>)
      requires Valid()
      modifies this
      ensures Valid()
      ensures status == Succeeded && data == payload && error == old(error)
    {
      status := Succeeded;
      data := payload;
    }

    /** `fetchExampleData.rejected`: `errorMessage` is `action.error.message`. */
    method FetchRejected(errorMessage: Option<string>)
      requires Valid()
      modifies this
      ensures Valid()
      ensures status == Failed && error == Some(OrFallback(errorMessage, "Something went wrong"))
      ensures data == old(data)
    {
      status := Failed;
      error := Some(OrFallback(errorMessage, Fallback));
    }

    /** Dispatching the fetch: `reply` is the HTTP answer. No case clears
        `error`, so once a fetch has failed a message stays in the state. */
    method RunFetch(reply: Reply<seq<ExampleItem>>)
      requires Valid()
      modifies this
      ensures Valid()
      ensures reply.Delivered? ==> status == Succeeded && data == reply.data && error == old(error)
      ensures reply.Errored? ==>
                status == Failed && data == old(data) &&
                error == Some(OrFallback(Some(reply.reason), "Something went wrong"))
      ensures old(error).Some? ==> error.Some?
    {
      FetchPending();
      match reply
      case Delivered(items) => FetchFulfilled(items);
      case Errored(reason) => FetchRejected(Some(reason));
    }
  }
}
