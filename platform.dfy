/** The two browser services the client writes to: `localStorage`, a map
    from keys to strings shared by every service, and the router, whose
    navigations are recorded in order rather than performed. */
module Platform {
  import opened Wrappers

  /** The browser's `localStorage`. */
  class LocalStorage {
    var items: map<string, string>

    constructor (items: map<string, string>)
      ensures this.items == items
    {
      this.items := items;
    }

    /** `localStorage.getItem(key)`. */
    function GetItem(key: string): Option<string>
      reads this
    {
      if key in items then Some(items[key]) else None
    }

    /** `localStorage.setItem(key, value)`. */
    method SetItem(key: string, value: string)
      modifies this
      ensures items == old(items)[key := value]
    {
      items := items[key := value];
    }

    /** `localStorage.removeItem(key)`. */
    method RemoveItem(key: string)
      modifies this
      ensures items == old(items) - {key}
    {
      items := items - {key};
    }
  }

  /** One call of `router.navigate(commands, { queryParams })`. */
  datatype Navigation = Navigation(path: string, returnUrl: Option<string>)

  /** The Angular router, reduced to the navigations it was asked for. */
  class Router {
    var history: seq<Navigation>

    constructor ()
      ensures history == []
    {
      history := [];
    }

    method Navigate(nav: Navigation)
      modifies this
      ensures history == old(history) + [nav]
    {
      history := history + [nav];
    }
  }
}
