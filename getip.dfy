/** `realIpRequest`: the client address a request is attributed to, taken
    from the proxy headers in a fixed order of precedence. */
module ClientIp {
  import opened Wrappers

  /** A request header as Express gives it: absent, one string, or an array
      of strings. */
  datatype HeaderValue = Absent | Single(text: string) | Many(items: seq<string>)

  /** `if (req.headers[name])`: a present header is truthy unless it is the
      empty string; an array, even an empty one, is truthy. */
  predicate Truthy(h: HeaderValue) {
    h.Many? || (h.Single? && h.text != "")
  }

  /** The header's value, or the first element of an array value; `None`
      is the `undefined` read from an empty array. */
  function FirstValue(h: HeaderValue): (v: Option<string>)
    requires Truthy(h)
    ensures h.Single? ==> v == Some(h.text)
    ensures h.Many? ==> (v.Some? <==> |h.items| > 0)
    ensures h.Many? && |h.items| > 0 ==> v == Some(h.items[0])
  {
    if h.Single? then Some(h.text)
    else if |h.items| > 0 then Some(h.items[0]) else None
  }

  /** `realIpRequest(req)`, with the library lookup `getClientIp(req)` as
      the parameter `clientIp` (`None` for null). */
  function RealIp(cfConnectingIp: HeaderValue, xNextIp: HeaderValue, clientIp: Option<string>): Option<string> {
    if Truthy(cfConnectingIp) then FirstValue(cfConnectingIp)
    else if Truthy(xNextIp) then FirstValue(xNextIp)
    else if clientIp.Some? && clientIp.value != "" then clientIp
    else Some("")
  }

  /** A present cf-connecting-ip header decides the result, whatever the
      other header and the library say. */
  lemma CloudflareDecides(cf: HeaderValue, x1: HeaderValue, x2: HeaderValue, c1: Option<string>, c2: Option<string>)
    requires Truthy(cf)
    ensures RealIp(cf, x1, c1) == RealIp(cf, x2, c2) == FirstValue(cf)
  {
  }

  /** x-next-ip is consulted only when cf-connecting-ip is absent, and then
      decides the result. */
  lemma NextIpOnlyWithoutCloudflare(cf: HeaderValue, x: HeaderValue, c: Option<string>)
    ensures RealIp(cf, x, c) == FirstValue(x) <== !Truthy(cf) && Truthy(x)
    ensures !Truthy(cf) && !Truthy(x) ==> RealIp(cf, x, c) == Some(c.GetOr(""))
  {
  }

  /** Where the address comes from: the first value of one of the two
      headers, the library's answer, or ''. It is undefined only when the
      deciding header is an empty array. */
  lemma RealIpProvenance(cf: HeaderValue, x: HeaderValue, c: Option<string>)
    ensures var ip := RealIp(cf, x, c);
            (Truthy(cf) && ip == FirstValue(cf)) ||
            (Truthy(x) && ip == FirstValue(x)) ||
            ip == c || ip == Some("")
    ensures RealIp(cf, x, c).None? <==>
            (cf == Many([]) || (!Truthy(cf) && x == Many([])))
  {
  }
}
