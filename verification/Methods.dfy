/** The request methods rload can replay (src/config.rs). */
module Methods {
  datatype Method = Get | Head | Post | Put | Patch | Delete | Options

  const ALL: seq<Method> := [Get, Head, Post, Put, Patch, Delete, Options]

  function Index(m: Method): (k: nat)
    ensures k < |ALL| && ALL[k] == m
  {
    match m
    case Get => 0 case Head => 1 case Post => 2 case Put => 3 case Patch => 4 case Delete => 5 case Options => 6
  }

  function Name(m: Method): string
  {
    match m
    case Get => "GET" case Head => "HEAD" case Post => "POST" case Put => "PUT"
    case Patch => "PATCH" case Delete => "DELETE" case Options => "OPTIONS"
  }
}
