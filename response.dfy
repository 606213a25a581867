/**
 * The header side of the vapm Express response
 * (`vennv\vapm\express\handlers\Response`): the status code, the list of
 * custom headers that `setHeader`, `cookie`, `clearCookie` and `attachment`
 * append to, and the header block assembled from them. The client socket,
 * rendering and the computed default options are not modelled; the
 * status name and the date formatting are parameters.
 */
module ExpressResponse {

  const HTTP_1_1: string := "HTTP/1.1"
  const OK: int := 200
  const CRLF: string := "\r\n"

  /** Cookie options by name, each value as the text PHP concatenates. */
  type Options = map<string, string>

  /** The cookie attributes, in the order `cookie` writes them. */
  datatype Attribute = Expires | MaxAge | Domain | Path | Secure | HttpOnly | SameSite

  const COOKIE_ATTRIBUTES: seq<Attribute> := [Expires, MaxAge, Domain, Path, Secure, HttpOnly, SameSite]

  /** The option that switches an attribute on. */
  function OptionName(a: Attribute): string
  {
    match a
    case Expires => "expires"
    case MaxAge => "maxAge"
    case Domain => "domain"
    case Path => "path"
    case Secure => "secure"
    case HttpOnly => "httpOnly"
    case SameSite => "sameSite"
  }

  /**
   * The text of an attribute for the option's value. `expires` goes
   * through the date formatter; Secure and HttpOnly are bare flags.
   */
  function AttributeText(a: Attribute, v: string, gmdate: string -> string): string
  {
    match a
    case Expires => "; expires=" + gmdate(v) + " GMT"
    case MaxAge => "; Max-Age=" + v
    case Domain => "; Domain=" + v
    case Path => "; Path=" + v
    case Secure => "; Secure"
    case HttpOnly => "; HttpOnly"
    case SameSite => "; SameSite=" + v
  }

  /** What an attribute adds to the cookie: its text if its option is present, nothing otherwise. */
  function Piece(a: Attribute, options: Options, gmdate: string -> string): string
  {
    if OptionName(a) in options then AttributeText(a, options[OptionName(a)], gmdate) else ""
  }

  /** The attributes of the named options that are present, in the order of `names`. */
  function Attributes(names: seq<Attribute>, options: Options, gmdate: string -> string): string
    decreases |names|
  {
    if names == [] then "" else Piece(names[0], options, gmdate) + Attributes(names[1..], options, gmdate)
  }

  /** Moving one attribute from the rest of the list onto the cookie built so far. */
  lemma Advance(built: string, k: nat, options: Options, gmdate: string -> string)
    requires k < |COOKIE_ATTRIBUTES|
    ensures built + Attributes(COOKIE_ATTRIBUTES[k..], options, gmdate)
         == (built + Piece(COOKIE_ATTRIBUTES[k], options, gmdate)) + Attributes(COOKIE_ATTRIBUTES[k + 1..], options, gmdate)
  {
    assert COOKIE_ATTRIBUTES[k..][1..] == COOKIE_ATTRIBUTES[k + 1..];
  }

  /**
   * The cookie is `key=value` followed by the attribute of each present
   * option, in the order expires, Max-Age, Domain, Path, Secure, HttpOnly,
   * SameSite.
   */
  lemma CookieAttributeOrder(key: string, value: string, options: Options, gmdate: string -> string)
    ensures CookieString(key, value, options, gmdate)
         == key + "=" + value + Piece(Expires, options, gmdate) + Piece(MaxAge, options, gmdate)
            + Piece(Domain, options, gmdate) + Piece(Path, options, gmdate) + Piece(Secure, options, gmdate)
            + Piece(HttpOnly, options, gmdate) + Piece(SameSite, options, gmdate)
  {
    var b0 := key + "=" + value;
    assert COOKIE_ATTRIBUTES[0..] == COOKIE_ATTRIBUTES;
    Advance(b0, 0, options, gmdate);
    var b1 := b0 + Piece(Expires, options, gmdate);
    Advance(b1, 1, options, gmdate);
    var b2 := b1 + Piece(MaxAge, options, gmdate);
    Advance(b2, 2, options, gmdate);
    var b3 := b2 + Piece(Domain, options, gmdate);
    Advance(b3, 3, options, gmdate);
    var b4 := b3 + Piece(Path, options, gmdate);
    Advance(b4, 4, options, gmdate);
    var b5 := b4 + Piece(Secure, options, gmdate);
    Advance(b5, 5, options, gmdate);
    var b6 := b5 + Piece(HttpOnly, options, gmdate);
    Advance(b6, 6, options, gmdate);
    var b7 := b6 + Piece(SameSite, options, gmdate);
    assert COOKIE_ATTRIBUTES[7..] == [];
    assert b7 + "" == b7;
  }

  /** The Set-Cookie value: `key=value`, then the attributes of the present options in fixed order. */
  function CookieString(key: string, value: string, options: Options, gmdate: string -> string): (c: string)
    ensures FoundAt(c, 0, key + "=" + value)
  {
    key + "=" + value + Attributes(COOKIE_ATTRIBUTES, options, gmdate)
  }

  /** `Attributes` depends only on the options it names. */
  lemma {:induction false} AttributesAgree(names: seq<Attribute>, o1: Options, o2: Options, gmdate: string -> string)
    requires forall a :: a in names ==> (OptionName(a) in o1 <==> OptionName(a) in o2)
    requires forall a :: a in names && OptionName(a) in o1 && a != Secure && a != HttpOnly ==> o1[OptionName(a)] == o2[OptionName(a)]
    ensures Attributes(names, o1, gmdate) == Attributes(names, o2, gmdate)
    decreases |names|
  {
    if names != [] {
      AttributesAgree(names[1..], o1, o2, gmdate);
    }
  }

  /** The values given for `secure` and `httpOnly` make no difference, only their presence. */
  lemma FlagValuesIgnored(key: string, value: string, options: Options, gmdate: string -> string,
                          secure: string, httpOnly: string)
    requires "secure" in options && "httpOnly" in options
    ensures CookieString(key, value, options, gmdate)
         == CookieString(key, value, options["secure" := secure]["httpOnly" := httpOnly], gmdate)
  {
    AttributesAgree(COOKIE_ATTRIBUTES, options, options["secure" := secure]["httpOnly" := httpOnly], gmdate);
  }

  /** An option `cookie` does not know adds nothing. */
  lemma UnknownOptionIgnored(key: string, value: string, options: Options, gmdate: string -> string,
                             name: string, v: string)
    requires forall a: Attribute :: OptionName(a) != name
    ensures CookieString(key, value, options[name := v], gmdate) == CookieString(key, value, options, gmdate)
  {
    AttributesAgree(COOKIE_ATTRIBUTES, options[name := v], options, gmdate);
  }

  /** With no options the cookie is the bare `key=value` pair. */
  lemma {:induction false} NoOptionsBarePair(key: string, value: string, gmdate: string -> string)
    ensures CookieString(key, value, map[], gmdate) == key + "=" + value
  {
    AttributesAbsent(COOKIE_ATTRIBUTES, map[], gmdate);
  }

  lemma {:induction false} AttributesAbsent(names: seq<Attribute>, options: Options, gmdate: string -> string)
    requires forall a :: a in names ==> OptionName(a) !in options
    ensures Attributes(names, options, gmdate) == ""
    decreases |names|
  {
    if names != [] {
      AttributesAbsent(names[1..], options, gmdate);
    }
  }

  /**
   * `clearCookie` forces maxAge to 0, so the maxAge a caller passes (or
   * leaves out) does not change the cookie it sets.
   */
  lemma ClearCookieIgnoresMaxAge(key: string, o1: Options, o2: Options, gmdate: string -> string)
    requires forall n :: n != "maxAge" ==> (n in o1 <==> n in o2)
    requires forall n :: n != "maxAge" && n in o1 ==> o1[n] == o2[n]
    ensures CookieString(key, "", o1["maxAge" := "0"], gmdate) == CookieString(key, "", o2["maxAge" := "0"], gmdate)
  {
    assert o1["maxAge" := "0"] == o2["maxAge" := "0"];
  }

  /** Every character is a decimal digit. */
  predicate IsDecimal(s: string)
  {
    forall i :: 0 <= i < |s| ==> '0' <= s[i] <= '9'
  }

  /** The decimal digits of a natural number, most significant first. */
  function NatToDecimal(n: nat): (s: string)
    ensures |s| > 0 && IsDecimal(s)
    decreases n
  {
    if n < 10 then [(('0' as int) + n) as char] else NatToDecimal(n / 10) + NatToDecimal(n % 10)
  }

  /** The number a string of decimal digits denotes. */
  function DecimalToNat(s: string): nat
    requires IsDecimal(s)
    decreases |s|
  {
    if s == [] then 0 else DecimalToNat(s[..|s| - 1]) * 10 + (s[|s| - 1] as int - '0' as int)
  }

  /** The digits written for a number read back as that number. */
  lemma {:induction false} DecimalRoundTrip(n: nat)
    ensures DecimalToNat(NatToDecimal(n)) == n
    decreases n
  {
    if n >= 10 {
      var s := NatToDecimal(n);
      var hi, lo := NatToDecimal(n / 10), NatToDecimal(n % 10);
      assert s == hi + lo && |lo| == 1;
      assert s[..|s| - 1] == hi;
      DecimalRoundTrip(n / 10);
    }
  }

  /** PHP's decimal text of an integer. */
  function IntToString(n: int): (s: string)
    ensures n >= 0 ==> IsDecimal(s) && s != [] && DecimalToNat(s) == n
    ensures n < 0 ==> |s| > 1 && s[0] == '-' && IsDecimal(s[1..]) && DecimalToNat(s[1..]) == -n
  {
    if n >= 0 then
      DecimalRoundTrip(n);
      NatToDecimal(n)
    else
      var digits := NatToDecimal(-n);
      DecimalRoundTrip(-n);
      assert ("-" + digits)[1..] == digits;
      "-" + digits
  }

  /** `piece` stands in `text` from index `at` on. */
  predicate FoundAt(text: string, at: nat, piece: string)
  {
    at + |piece| <= |text| && text[at..at + |piece|] == piece
  }

  /** `text` ends with `suffix`. */
  predicate EndsWith(text: string, suffix: string)
  {
    |suffix| <= |text| && text[|text| - |suffix|..] == suffix
  }

  /** The summed lengths of some strings. */
  function TotalLength(parts: seq<string>): nat
    decreases |parts|
  {
    if parts == [] then 0 else |parts[0]| + TotalLength(parts[1..])
  }

  /** `implode($sep, $parts)`: the parts in order, with one separator between neighbours. */
  function Implode(sep: string, parts: seq<string>): (r: string)
    ensures |r| == TotalLength(parts) + if parts == [] then 0 else (|parts| - 1) * |sep|
    ensures parts != [] ==> FoundAt(r, 0, parts[0])
    decreases |parts|
  {
    if parts == [] then "" else if |parts| == 1 then parts[0] else parts[0] + sep + Implode(sep, parts[1..])
  }

  /** Joining one more part adds the separator and that part at the end. */
  lemma {:induction false} ImplodeAppend(sep: string, parts: seq<string>, last: string)
    requires parts != []
    ensures Implode(sep, parts + [last]) == Implode(sep, parts) + sep + last
    decreases |parts|
  {
    if |parts| == 1 {
      assert parts + [last] == [parts[0], last];
    } else {
      assert (parts + [last])[1..] == parts[1..] + [last];
      ImplodeAppend(sep, parts[1..], last);
    }
  }

  /** The status line: protocol, code and status name separated by spaces. */
  function StatusLine(protocol: string, status: int, statusName: string): (r: string)
    ensures FoundAt(r, 0, protocol + " ") && EndsWith(r, CRLF)
  {
    protocol + " " + IntToString(status) + " " + statusName + CRLF
  }

  /** The header block: the status line, the header lines joined by CRLF, then an empty line. */
  function HeaderBlockOf(protocol: string, status: int, statusName: string, lines: seq<string>): (r: string)
    ensures var head := StatusLine(protocol, status, statusName);
            && |r| == |head| + |Implode(CRLF, lines)| + 2 * |CRLF|
            && FoundAt(r, 0, head) && FoundAt(r, |head|, Implode(CRLF, lines)) && EndsWith(r, CRLF + CRLF)
  {
    BlockPieces(StatusLine(protocol, status, statusName), Implode(CRLF, lines));
    StatusLine(protocol, status, statusName) + Implode(CRLF, lines) + CRLF + CRLF
  }

  /** Where the status line, the joined lines and the closing CRLFs sit in a block. */
  lemma BlockPieces(head: string, body: string)
    ensures var r := head + body + CRLF + CRLF;
            FoundAt(r, 0, head) && FoundAt(r, |head|, body) && EndsWith(r, CRLF + CRLF)
  {
    var r := head + body + CRLF + CRLF;
    assert r == head + body + (CRLF + CRLF);
  }

  /** One more header line lands just before the terminating empty line. */
  lemma HeaderBlockAppend(protocol: string, status: int, statusName: string, lines: seq<string>, line: string)
    requires lines != []
    ensures HeaderBlockOf(protocol, status, statusName, lines + [line])
         == StatusLine(protocol, status, statusName) + Implode(CRLF, lines) + CRLF + line + CRLF + CRLF
  {
    var head, body := StatusLine(protocol, status, statusName), Implode(CRLF, lines);
    ImplodeAppend(CRLF, lines, line);
    calc {
      HeaderBlockOf(protocol, status, statusName, lines + [line]);
      head + Implode(CRLF, lines + [line]) + CRLF + CRLF;
      head + (body + CRLF + line) + CRLF + CRLF;
      { AppendRegroup(head, body, CRLF, line); }
      head + body + CRLF + line + CRLF + CRLF;
    }
  }

  /** The first header line follows the status line. */
  lemma HeaderBlockFirstLine(protocol: string, status: int, statusName: string, lines: seq<string>)
    requires lines != []
    ensures FoundAt(HeaderBlockOf(protocol, status, statusName, lines), |StatusLine(protocol, status, statusName)|, lines[0])
  {
    var head, block := StatusLine(protocol, status, statusName), HeaderBlockOf(protocol, status, statusName, lines);
    SliceWithin(block, |head|, Implode(CRLF, lines), lines[0]);
  }

  /** A prefix of a piece found at position `at` is found at `at` too. */
  lemma SliceWithin(block: string, at: nat, piece: string, prefix: string)
    requires FoundAt(block, at, piece) && FoundAt(piece, 0, prefix)
    ensures FoundAt(block, at, prefix)
  {
    assert block[at..at + |prefix|] == block[at..at + |piece|][..|prefix|];
  }

  /** Regrouping the pieces of a concatenation. */
  lemma AppendRegroup(a: string, b: string, c: string, d: string)
    ensures a + (b + c + d) == a + b + c + d
  {
  }

  /** A header line put together from a key, the separator and a value in three pieces. */
  lemma HeaderLineJoin(key: string, sep: string, v1: string, v2: string, v3: string)
    ensures key + sep + (v1 + v2 + v3) == (key + sep + v1) + v2 + v3
  {
  }

  /** The fixed start of the header `attachment` sets. */
  lemma DispositionPrefix()
    ensures "Content-Disposition" + ": " + "attachment; filename=\"" == "Content-Disposition: attachment; filename=\""
  {
  }

  /** A 200 response with one header line. */
  lemma OkBlockExample(line: string)
    ensures HeaderBlockOf(HTTP_1_1, OK, "OK", [line]) == "HTTP/1.1 200 OK\r\n" + line + "\r\n\r\n"
  {
    OkStatusLine();
  }

  /** The status line of a new response. */
  lemma OkStatusLine()
    ensures StatusLine(HTTP_1_1, OK, "OK") == "HTTP/1.1 200 OK\r\n"
  {
    assert NatToDecimal(2) == "2" && NatToDecimal(0) == "0";
    assert NatToDecimal(20) == "20";
    assert NatToDecimal(200) == "200";
  }

  /** Lines 413-421 of `cookie`: the cookie built one `.=` at a time. */
  method BuildCookie(key: string, value: string, options: Options, gmdate: string -> string) returns (cookie: string)
    ensures cookie == CookieString(key, value, options, gmdate)
  {
    cookie := key + "=" + value;
    ghost var before := cookie;
    cookie := cookie + (if "expires" in options then ("; expires=" + gmdate(options["expires"]) + " GMT") else "");
    assert cookie == before + Piece(Expires, options, gmdate);
    before := cookie;
    cookie := cookie + (if "maxAge" in options then ("; Max-Age=" + options["maxAge"]) else "");
    assert cookie == before + Piece(MaxAge, options, gmdate);
    before := cookie;
    cookie := cookie + (if "domain" in options then ("; Domain=" + options["domain"]) else "");
    assert cookie == before + Piece(Domain, options, gmdate);
    before := cookie;
    cookie := cookie + (if "path" in options then ("; Path=" + options["path"]) else "");
    assert cookie == before + Piece(Path, options, gmdate);
    before := cookie;
    cookie := cookie + (if "secure" in options then "; Secure" else "");
    assert cookie == before + Piece(Secure, options, gmdate);
    before := cookie;
    cookie := cookie + (if "httpOnly" in options then "; HttpOnly" else "");
    assert cookie == before + Piece(HttpOnly, options, gmdate);
    before := cookie;
    cookie := cookie + (if "sameSite" in options then ("; SameSite=" + options["sameSite"]) else "");
    assert cookie == before + Piece(SameSite, options, gmdate);
    CookieAttributeOrder(key, value, options, gmdate);
  }

  class Response {
    const path: string
    const requestMethod: string
    const protocol: string
    var status: int
    var headers: seq<string>

    /** A new response: HTTP/1.1, status OK, no custom headers. */
    constructor (path: string, requestMethod: string := "")
      ensures this.path == path && this.requestMethod == requestMethod
      ensures protocol == HTTP_1_1 && status == OK && headers == []
    {
      this.path := path;
      this.requestMethod := requestMethod;
      protocol := HTTP_1_1;
      status := OK;
      headers := [];
    }

    /** `status`: sets the code and returns the same response, for chaining. */
    method SetStatus(code: int) returns (self: Response)
      modifies this`status
      ensures status == code && self == this
    {
      status := code;
      self := this;
    }

    /** `setHeader`: appends `key: value` after the existing custom headers. */
    method SetHeader(key: string, value: string)
      modifies this`headers
      ensures headers == old(headers) + [key + ": " + value]
    {
      headers := headers + [key + ": " + value];
    }

    /** `cookie`: adds the cookie as a single Set-Cookie header. */
    method Cookie(key: string, value: string, options: Options, gmdate: string -> string)
      modifies this`headers
      ensures headers == old(headers) + ["Set-Cookie: " + CookieString(key, value, options, gmdate)]
    {
      var cookie := BuildCookie(key, value, options, gmdate);
      SetHeader("Set-Cookie", cookie);
      assert "Set-Cookie" + ": " + cookie == "Set-Cookie: " + cookie;
    }

    /** `clearCookie`: a cookie with an empty value and maxAge 0, whatever maxAge was given. */
    method ClearCookie(key: string, options: Options, gmdate: string -> string)
      modifies this`headers
      ensures headers == old(headers) + ["Set-Cookie: " + CookieString(key, "", options["maxAge" := "0"], gmdate)]
    {
      Cookie(key, "", options["maxAge" := "0"], gmdate);
    }

    /** `attachment`: a Content-Disposition header naming the file in quotes. */
    method Attachment(filename: string)
      modifies this`headers
      ensures headers == old(headers) + ["Content-Disposition: attachment; filename=\"" + filename + "\""]
    {
      var value := "attachment; filename=\"" + filename + "\"";
      SetHeader("Content-Disposition", value);
      HeaderLineJoin("Content-Disposition", ": ", "attachment; filename=\"", filename, "\"");
      DispositionPrefix();
    }

    /** Lines 270-272 of `buildHeader`: the computed options first, then the custom headers. */
    function HeaderBlock(statusName: string, options: seq<string>): (r: string)
      reads this
      ensures FoundAt(r, 0, StatusLine(protocol, status, statusName)) && EndsWith(r, CRLF + CRLF)
      ensures options != [] ==> FoundAt(r, |StatusLine(protocol, status, statusName)|, options[0])
      ensures options == [] && headers != [] ==> FoundAt(r, |StatusLine(protocol, status, statusName)|, headers[0])
    {
      var lines := options + headers;
      if lines != [] then
        HeaderBlockFirstLine(protocol, status, statusName, lines);
        assert lines[0] == if options != [] then options[0] else headers[0];
        HeaderBlockOf(protocol, status, statusName, lines)
      else
        HeaderBlockOf(protocol, status, statusName, lines)
    }
  }

  /**
   * A custom header set after a block was computed appears in the next
   * block as the last line, and nothing before it in the block changes.
   * With no earlier lines the new line follows the status line directly,
   * because `implode` of an empty list is empty.
   */
  method SetHeaderExtendsBlock(r: Response, statusName: string, options: seq<string>, key: string, value: string)
    returns (before: string, after: string)
    modifies r`headers
    ensures before == HeaderBlockOf(r.protocol, r.status, statusName, options + old(r.headers))
    ensures options + old(r.headers) != [] ==>
              after == StatusLine(r.protocol, r.status, statusName) + Implode(CRLF, options + old(r.headers))
                       + CRLF + (key + ": " + value) + CRLF + CRLF
    ensures options + old(r.headers) != [] ==>
              after == before[..|before| - |CRLF|] + (key + ": " + value) + CRLF + CRLF
    ensures options + old(r.headers) == [] ==>
              after == before[..|before| - 2 * |CRLF|] + (key + ": " + value) + CRLF + CRLF
  {
    ghost var lines, line := options + r.headers, key + ": " + value;
    before := r.HeaderBlock(statusName, options);
    r.SetHeader(key, value);
    assert options + r.headers == lines + [line];
    after := r.HeaderBlock(statusName, options);
    BlockExtends(r.protocol, r.status, statusName, lines, line, before, after);
  }

  /** The block before and after one more line: the line goes in just before the closing empty line. */
  lemma BlockExtends(protocol: string, status: int, statusName: string, lines: seq<string>, line: string,
                     before: string, after: string)
    requires before == HeaderBlockOf(protocol, status, statusName, lines)
    requires after == HeaderBlockOf(protocol, status, statusName, lines + [line])
    ensures lines != [] ==> after == StatusLine(protocol, status, statusName) + Implode(CRLF, lines) + CRLF + line + CRLF + CRLF
    ensures lines != [] ==> after == before[..|before| - |CRLF|] + line + CRLF + CRLF
    ensures lines == [] ==> after == before[..|before| - 2 * |CRLF|] + line + CRLF + CRLF
  {
    if lines != [] {
      HeaderBlockAppend(protocol, status, statusName, lines, line);
      BlockDropsClosingLine(StatusLine(protocol, status, statusName) + Implode(CRLF, lines) + CRLF);
    } else {
      assert lines + [line] == [line];
      FirstBlockLine(StatusLine(protocol, status, statusName), line);
    }
  }

  /** Dropping the last CRLF of a block leaves what came before it. */
  lemma BlockDropsClosingLine(p: string)
    ensures var before := p + CRLF; before[..|before| - |CRLF|] == p
  {
  }

  /** An empty block and the block of one line share the status line. */
  lemma FirstBlockLine(head: string, line: string)
    ensures var before := head + Implode(CRLF, []) + CRLF + CRLF;
            before[..|before| - 2 * |CRLF|] == head
    ensures head + Implode(CRLF, [line]) + CRLF + CRLF == head + line + CRLF + CRLF
  {
    assert head + Implode(CRLF, []) == head;
  }
}
