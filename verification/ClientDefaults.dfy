/** Making clients (goose/client/client.go, `NewClient`). The package keeps one default list of
    required service types; a caller's own list is never used, and calling without one overwrites
    the default for good. */
module ClientDefaults {
  import opened Wrappers
  import opened Regions
  import opened AuthClient

  const DEFAULT_TYPES := ["compute", "network", "object-store", "identity", "image"]

  /** The package's list after a call that passes `required`, or nil. */
  function Overwritten(defaults: seq<string>, required: Option<seq<string>>): seq<string> {
    if required.None? then [] else defaults
  }

  /** The package's list after a series of calls. */
  function After(defaults: seq<string>, calls: seq<Option<seq<string>>>): seq<string>
    decreases |calls|
  {
    if calls == [] then defaults else After(Overwritten(defaults, calls[0]), calls[1..])
  }

  class Package {
    var defaultRequiredServiceTypes: seq<string>

    constructor ()
      ensures defaultRequiredServiceTypes == DEFAULT_TYPES
    {
      defaultRequiredServiceTypes := DEFAULT_TYPES;
    }

    method NewClient(region: string, required: Option<seq<string>>, serviceUrls: ServiceURLs)
      returns (c: AuthenticatingClient)
      modifies this
      ensures fresh(c) && c.region == region && c.SharedState() == Shared("", serviceUrls, map[])
      ensures defaultRequiredServiceTypes == Overwritten(old(defaultRequiredServiceTypes), required)
      ensures c.requiredServiceTypes == defaultRequiredServiceTypes
      ensures serviceUrls == map[] ==> Prepared(c.requiredServiceTypes, c.SharedState())
    {
      if required.None? {
        defaultRequiredServiceTypes := [];
      }
      c := new AuthenticatingClient(region, defaultRequiredServiceTypes, serviceUrls);
    }
  }

  lemma {:induction false} AfterNil(defaults: seq<string>, calls: seq<Option<seq<string>>>)
    ensures After(defaults, calls) == if None in calls then [] else defaults
    decreases |calls|
  {
    if calls != [] {
      AfterNil(Overwritten(defaults, calls[0]), calls[1..]);
      assert None in calls <==> calls[0].None? || None in calls[1..];
    }
  }

  /** After any series of calls, a client made with a list of its own gets just that list exactly
      when it happens to be the default one, or is empty and some earlier call had none. */
  lemma {:induction false} RequestHonouredExactly(calls: seq<Option<seq<string>>>, required: seq<string>)
    ensures After(DEFAULT_TYPES, calls + [Some(required)]) == required <==>
            required == if None in calls then []
                        else ["compute", "network", "object-store", "identity", "image"]
  {
    AfterNil(DEFAULT_TYPES, calls + [Some(required)]);
  }

  /** Once one client was made without a list, no later client requires anything. */
  lemma {:induction false} NothingRequiredExactly(calls: seq<Option<seq<string>>>)
    ensures After(DEFAULT_TYPES, calls) == [] <==> None in calls
  {
    AfterNil(DEFAULT_TYPES, calls);
  }
}
