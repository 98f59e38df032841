/**
 * `URLFetcher`: every request goes through `fetch`, which counts it. The network itself is not
 * modelled: what a request returns (parsed JSON, page bytes, or nothing) is
 * given to the method as `answer`.
 */
module Fetcher {
  import opened Wrappers
  import Storage
  import Disk

  /** How a request ends: its body arrives (JSON may be `null`), or the time limit expires. */
  datatype Outcome<T> = Arrived(answer: Option<T>) | TimedOut

  /** What a call gives its caller: a value, or an exception it lets escape. */
  datatype Raised<T> = Returned(value: T) | Raises

  /**
   * `fetch` as written: the expiry of `async_timeout.timeout` is raised when the `with` block
   * exits, which is outside the `try`, so the `except asyncio.TimeoutError` never sees it and
   * the exception escapes to the caller.
   */
  function FetchAsWritten<T>(o: Outcome<T>): (r: Raised<Option<T>>)
    ensures r.Raises? <==> o.TimedOut?
    ensures o.Arrived? ==> r == Returned(o.answer)
  {
    match o
    case Arrived(a) => Returned(a)
    case TimedOut => Raises
  }

  /**
   * `fetch` as its handler intends: a request that runs out of time is logged and gives None,
   * like a body that never came; the rest of the model receives answers in this form.
   */
  function FetchIntended<T>(o: Outcome<T>): (r: Option<T>)
    ensures o.TimedOut? ==> r.None?
    ensures o.Arrived? ==> r == o.answer
  {
    match o
    case Arrived(a) => a
    case TimedOut => None
  }

  class URLFetcher {
    /** Requests issued so far, successful or not. */
    var fetchCounter: nat

    constructor ()
      ensures fetchCounter == 0
    {
      fetchCounter := 0;
    }

    /**
     * `fetch(session, url)` with `just_json=True`: the parsed response, or None. `answer` is
     * `FetchIntended` of how the request ended.
     */
    method FetchJson<T>(answer: Option<T>) returns (response: Option<T>)
      modifies this
      ensures fetchCounter == old(fetchCounter) + 1
      ensures response == answer
    {
      fetchCounter := fetchCounter + 1;
      response := answer;
    }

    /**
     * `fetch(session, url, just_json=False, dest_dir=dest)`: the page, when it arrives, is
     * written by `write_to_disk`; when none arrives (`FetchIntended` of a timed-out request)
     * nothing is written.
     */
    method FetchPage(store: Storage.Store, url: string, dest: string, answer: Option<string>)
      modifies this, store
      ensures fetchCounter == old(fetchCounter) + 1
      ensures store.State() == Disk.WriteToDisk(old(store.State()), answer, url, dest)
    {
      fetchCounter := fetchCounter + 1;
      if answer.Some? {
        store.WriteToDisk(answer, url, dest);
      }
    }
  }
}
