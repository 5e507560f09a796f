/** The calendars written to, as resources keyed by absolute address. */
module Remote {
  import opened Text
  import opened Records

  /** A PUT stores the resource whether or not the address was in use. */
  function Put(resources: map<string, Content>, href: string, data: Content, fate: Fate): map<string, Content> {
    if fate.TakesEffect() then resources[href := data] else resources
  }

  /** A DELETE of an absent resource is an error without effect. */
  function Delete(resources: map<string, Content>, href: string, fate: Fate): map<string, Content> {
    if fate.TakesEffect() then resources - {href} else resources
  }

  class CalendarServer {
    var resources: map<string, Content>

    constructor (initial: map<string, Content>)
      ensures resources == initial
    {
      resources := initial;
    }

    method CreateEvent(base: string, data: Content, fate: Fate) returns (ok: bool, href: string)
      modifies this
      ensures ok == fate.Done? && href == HrefFor(base, data.uid)
      ensures resources == Put(old(resources), href, data, fate)
    {
      href := HrefFor(base, data.uid);
      resources := Put(resources, href, data, fate);
      ok := fate.Done?;
    }

    /** A non-empty ETag makes the request conditional; a server that rejects it refuses the call. */
    method UpdateEvent(href: string, data: Content, etag: string, fate: Fate) returns (ok: bool)
      modifies this
      ensures ok == fate.Done?
      ensures resources == Put(old(resources), href, data, fate)
    {
      resources := Put(resources, href, data, fate);
      ok := fate.Done?;
    }

    method DeleteEvent(href: string, etag: string, fate: Fate) returns (ok: bool)
      modifies this
      ensures ok <==> fate.Done? && href in old(resources)
      ensures resources == Delete(old(resources), href, fate)
    {
      ok := fate.Done? && href in resources;
      resources := Delete(resources, href, fate);
    }
  }
}
