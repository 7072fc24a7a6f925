/**
 * The background script's `onHeadersReceived` listener: it strips every
 * Content-Security-Policy header from a response and appends one whose value is `*`.
 */
module Csp {
  import opened Common
  import opened Seqs
  import Strings

  datatype Header = Header(name: string, value: string)

  const CspName: string := "content-security-policy"

  /** The header that is appended to every response. */
  const Permissive: Header := Header(CspName, "*")

  /** A header is a CSP header when its name, lower-cased, is `content-security-policy`. */
  predicate IsCsp(h: Header)
  {
    Strings.ToLowerAscii(h.name) == CspName
  }

  /** The filter's predicate: headers that are not CSP headers survive. */
  predicate KeepHeader(h: Header)
  {
    !IsCsp(h)
  }

  /** The appended header is itself a CSP header. */
  lemma PermissiveIsCsp()
    ensures IsCsp(Permissive)
  {
    var lower := Strings.ToLowerAscii(CspName);
    assert forall i :: 0 <= i < |CspName| ==> lower[i] == CspName[i];
  }

  /**
   * The rewritten header list: every CSP header is gone, all other headers remain in
   * their original order, and one `content-security-policy: *` header closes the list.
   */
  function Rewritten(headers: seq<Header>): (r: seq<Header>)
    ensures |r| == Count(headers, KeepHeader) + 1
    ensures r[|r| - 1] == Permissive
    ensures forall i :: 0 <= i < |r| - 1 ==> !IsCsp(r[i])
    ensures IsSubsequence(r[..|r| - 1], headers)
  {
    var kept := Filter(headers, KeepHeader);
    FilterLength(headers, KeepHeader);
    FilterIsSubsequence(headers, KeepHeader);
    assert (kept + [Permissive])[..|kept|] == kept;
    kept + [Permissive]
  }

  /** The listener: `responseHeaders?.filter(...)`, then `responseHeaders?.push(...)` on the filtered list. */
  method OnHeadersReceived(responseHeaders: Option<seq<Header>>) returns (result: Option<seq<Header>>)
    ensures result.None? <==> responseHeaders.None?
    ensures result.Some? ==> result.value == Rewritten(responseHeaders.value)
  {
    result := responseHeaders;
    if result.Some? {
      result := Some(Filter(result.value, KeepHeader));
    }
    if result.Some? {
      var list := result.value;
      list := list + [Permissive];
      result := Some(list);
    }
  }

  /** A header is in the output exactly when it is a non-CSP input header or the appended one. */
  lemma RewrittenMembership(headers: seq<Header>, h: Header)
    ensures h in Rewritten(headers) <==> (h in headers && !IsCsp(h)) || h == Permissive
  {
    FilterMembership(headers, KeepHeader, h);
  }

  /** The output holds exactly one CSP header, the appended one. */
  lemma ExactlyOneCsp(headers: seq<Header>)
    ensures Count(Rewritten(headers), IsCsp) == 1
  {
    var r := Rewritten(headers);
    var kept := r[..|r| - 1];
    assert r == kept + [Permissive];
    CountAppend(kept, [Permissive], IsCsp);
    NoneCounted(kept);
    PermissiveIsCsp();
    assert [Permissive][1..] == [];
  }

  /** A list without CSP headers counts none. */
  lemma {:induction false} NoneCounted(headers: seq<Header>)
    requires forall i :: 0 <= i < |headers| ==> !IsCsp(headers[i])
    ensures Count(headers, IsCsp) == 0
  {
    if headers != [] {
      NoneCounted(headers[1..]);
    }
  }

  /** Rewriting an already rewritten list changes nothing. */
  lemma RewriteIdempotent(headers: seq<Header>)
    ensures Rewritten(Rewritten(headers)) == Rewritten(headers)
  {
    var kept := Filter(headers, KeepHeader);
    FilterAppend(kept, [Permissive], KeepHeader);
    FilterAllKept(kept, KeepHeader);
    PermissiveIsCsp();
    assert Filter([Permissive], KeepHeader) == [];
  }
}
