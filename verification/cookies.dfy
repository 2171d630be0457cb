/** The client's cookie jar: what `setcookie` writes into it and what the
    client sends back, as `$_COOKIE`, on a later request. */
module Cookies {

  /** One stored cookie: its value and the time (in seconds) at which it
      expires. */
  datatype Cookie = Cookie(value: string, expires: int)

  /** The cookies a request made at time `now` carries: those whose expiry
      time has not been reached yet, by name. */
  function Live(cookies: map<string, Cookie>, now: int): (sent: map<string, string>)
    ensures forall name :: name in sent <==> name in cookies && now < cookies[name].expires
    ensures forall name :: name in sent ==> sent[name] == cookies[name].value
  {
    map name | name in cookies && now < cookies[name].expires :: cookies[name].value
  }

  /** The jar after `setcookie(name, value, expires)`: an empty value deletes
      the cookie, any other value replaces the cookie of that name. */
  function Stored(cookies: map<string, Cookie>, name: string, value: string, expires: int): (r: map<string, Cookie>)
    ensures value == "" ==> name !in r
    ensures value != "" ==> name in r && r[name] == Cookie(value, expires)
    ensures forall other :: other != name ==> (other in r <==> other in cookies)
    ensures forall other :: other != name && other in r ==> r[other] == cookies[other]
  {
    if value == "" then cookies - {name} else cookies[name := Cookie(value, expires)]
  }

  class CookieJar {
    var cookies: map<string, Cookie>

    constructor ()
      ensures cookies == map[]
    {
      cookies := map[];
    }

    /** `$_COOKIE` of a request made at time `now`. */
    function Sent(now: int): map<string, string>
      reads this
    {
      Live(cookies, now)
    }

    /** `setcookie(name, value, expires)` as the client records it. */
    method SetCookie(name: string, value: string, expires: int)
      modifies this
      ensures cookies == Stored(old(cookies), name, value, expires)
    {
      cookies := Stored(cookies, name, value, expires);
    }
  }
}
