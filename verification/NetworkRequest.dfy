/** The request that every network mode handles, and the string functions its handlers use. */
module NetworkRequest {
  import opened Options

  /** `headers` lists the header map in the order in which a loop over it happens to visit it, and is None for
      a nil map. */
  datatype Request = Request(
    id: string, protocol: string, method_: string, domain: string, ip: string, port: int, path: string,
    headers: Option<seq<(string, string)>>, body: string, contentLength: int, sourceIP: string, sourcePort: int)

  const BLANK := Request("", "", "", "", "", 0, "", Some([]), "", 0, "", 0)

  /** A loop over a nil map visits nothing. */
  function HeadersOf(req: Request): seq<(string, string)> {
    match req.headers
    case None => []
    case Some(h) => h
  }

  function LowerChar(c: char): char {
    if 'A' <= c <= 'Z' then c - 'A' + 'a' else c
  }

  function UpperChar(c: char): char {
    if 'a' <= c <= 'z' then c - 'a' + 'A' else c
  }

  function ToLower(s: string): (r: string)
    ensures |r| == |s|
  {
    seq(|s|, i requires 0 <= i < |s| => LowerChar(s[i]))
  }

  function ToUpper(s: string): (r: string)
    ensures |r| == |s|
  {
    seq(|s|, i requires 0 <= i < |s| => UpperChar(s[i]))
  }

  predicate HasSuffix(s: string, suffix: string) {
    |suffix| <= |s| && s[|s| - |suffix|..] == suffix
  }

  predicate HasPrefix(s: string, prefix: string) {
    |prefix| <= |s| && s[..|prefix|] == prefix
  }

  predicate Contains(s: string, part: string) {
    exists i :: 0 <= i <= |s| && HasPrefix(s[i..], part)
  }
}
