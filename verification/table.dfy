/** The constant status-code table: code -> (reason phrase, explanation).
    The rows are written in the order of the dictionary literal they model,
    which is also the order in which Python iterates that dictionary. The
    literal is split into runs of a few rows each (one run per status class,
    the long 4xx class in four) only to keep the proofs about it small;
    `StatusCodes` puts the runs back together in their original order. */
module StatusTable {
  import opened Wrappers
  import opened Sorting

  /** The two strings stored for one code. */
  datatype Entry = Entry(short: string, long: string)

  /** One key/value pair of the table. */
  datatype Row = Row(code: int, entry: Entry)

  /** 1xx: informational responses */
  const Informational: seq<Row> := [
      Row(100, Entry("Continue", "Request received, please continue")),
      Row(101, Entry("Switching Protocols", "Switching to new protocol; obey Upgrade header")),
      Row(102, Entry("Processing", "WebDAV; RFC 2518"))
    ]

  /** 2xx: successful responses */
  const Successful: seq<Row> := [
      Row(200, Entry("OK", "Request fulfilled, document follows")),
      Row(201, Entry("Created", "Document created, URL follows")),
      Row(202, Entry("Accepted", "Request accepted, processing continues off-line")),
      Row(203, Entry("Non-Authoritative Information", "Request fulfilled from cache")),
      Row(204, Entry("No Content", "Request fulfilled, nothing follows")),
      Row(205, Entry("Reset Content", "Clear input form for further input.")),
      Row(206, Entry("Partial Content", "Partial content follows.")),
      Row(207, Entry("Multi-Status", "WebDAV; RFC 4918")),
      Row(208, Entry("Already Reported", "WebDAV; RFC 5842")),
      Row(226, Entry("IM Used", "RFC 3229"))
    ]

  /** 3xx: redirection */
  const Redirection: seq<Row> := [
      Row(300, Entry("Multiple Choices", "Object has several resources -- see URI list")),
      Row(301, Entry("Moved Permanently", "Object moved permanently -- see URI list")),
      Row(302, Entry("Found", "Object moved temporarily -- see URI list")),
      Row(303, Entry("See Other", "Object moved -- see Method and URL list")),
      Row(304, Entry("Not Modified", "Document has not changed since given time")),
      Row(305, Entry("Use Proxy", "You must use proxy specified in Location to access this resource.")),
      Row(306, Entry("Switch Proxy", "Subsequent requests should use the specified proxy")),
      Row(307, Entry("Temporary Redirect", "Object moved temporarily -- see URI list")),
      Row(308, Entry("Permanent Redirect", "Object moved permanently"))
    ]

  /** 4xx: client errors 400 to 408 */
  const ClientErrorLow: seq<Row> := [
      Row(400, Entry("Bad Request", "Bad request syntax or unsupported method")),
      Row(401, Entry("Unauthorized", "No permission -- see authorization schemes")),
      Row(402, Entry("Payment Required", "No payment -- see charging schemes")),
      Row(403, Entry("Forbidden", "Request forbidden -- authorization will not help")),
      Row(404, Entry("Not Found", "Nothing matches the given URI")),
      Row(405, Entry("Method Not Allowed", "Specified method is invalid for this resource.")),
      Row(406, Entry("Not Acceptable", "URI not available in preferred format.")),
      Row(407, Entry("Proxy Authentication Required", "You must authenticate with this proxy before proceeding.")),
      Row(408, Entry("Request Timeout", "Request timed out; try again later."))
    ]

  /** 4xx: client errors 409 to 417 */
  const ClientErrorMid: seq<Row> := [
      Row(409, Entry("Conflict", "Request conflict.")),
      Row(410, Entry("Gone", "URI no longer exists and has been permanently removed.")),
      Row(411, Entry("Length Required", "Client must specify Content-Length.")),
      Row(412, Entry("Precondition Failed", "Precondition in headers is false.")),
      Row(413, Entry("Payload Too Large", "Payload is too large.")),
      Row(414, Entry("Request-URI Too Long", "URI is too long.")),
      Row(415, Entry("Unsupported Media Type", "Entity body in unsupported format.")),
      Row(416, Entry("Requested Range Not Satisfiable", "Cannot satisfy request range.")),
      Row(417, Entry("Expectation Failed", "Expect condition could not be satisfied."))
    ]

  /** 4xx: client errors from 418 on, mostly later or vendor codes */
  const ClientErrorHigh: seq<Row> := ClientErrorRecent + ClientErrorVendor

  /** 418 to 431 */
  const ClientErrorRecent: seq<Row> := [
      Row(418, Entry("I'm a teapot", "The HTCPCP server is a teapot")),
      Row(419, Entry("Authentication Timeout", "previously valid authentication has expired")),
      Row(420, Entry("Method Failure / Enhance Your Calm", "Spring Framework / Twitter")),
      Row(422, Entry("Unprocessable Entity", "WebDAV; RFC 4918")),
      Row(423, Entry("Locked", "WebDAV; RFC 4918")),
      Row(424, Entry("Failed Dependency / Method Failure", "WebDAV; RFC 4918")),
      Row(425, Entry("Unordered Collection", "Internet draft")),
      Row(426, Entry("Upgrade Required", "client should switch to a different protocol")),
      Row(428, Entry("Precondition Required", "RFC 6585")),
      Row(429, Entry("Too Many Requests", "RFC 6585")),
      Row(431, Entry("Request Header Fields Too Large", "RFC 6585"))
    ]

  /** 440 to 499 */
  const ClientErrorVendor: seq<Row> := [
      Row(440, Entry("Login Timeout", "Microsoft")),
      Row(444, Entry("No Response", "Nginx")),
      Row(449, Entry("Retry With", "Microsoft")),
      Row(450, Entry("Blocked by Windows Parental Controls", "Microsoft")),
      Row(451, Entry("Unavailable For Legal Reasons", "RFC 7725")),
      Row(494, Entry("Request Header Too Large", "Nginx")),
      Row(495, Entry("Cert Error", "Nginx")),
      Row(496, Entry("No Cert", "Nginx")),
      Row(497, Entry("HTTP to HTTPS", "Nginx")),
      Row(498, Entry("Token expired/invalid", "Esri")),
      Row(499, Entry("Client Closed Request", "Nginx"))
    ]

  /** 5xx: server errors, including vendor codes */
  const ServerError: seq<Row> := [
      Row(500, Entry("Internal Server Error", "Server got itself in trouble")),
      Row(501, Entry("Not Implemented", "Server does not support this operation")),
      Row(502, Entry("Bad Gateway", "Invalid responses from another server/proxy.")),
      Row(503, Entry("Service Unavailable", "The server cannot process the request due to a high load")),
      Row(504, Entry("Gateway Timeout", "The gateway server did not receive a timely response")),
      Row(505, Entry("HTTP Version Not Supported", "Cannot fulfill request.")),
      Row(506, Entry("Variant Also Negotiates", "RFC 2295")),
      Row(507, Entry("Insufficient Storage", "WebDAV; RFC 4918")),
      Row(508, Entry("Loop Detected", "WebDAV; RFC 5842")),
      Row(509, Entry("Bandwidth Limit Exceeded", "Apache bw/limited extension")),
      Row(510, Entry("Not Extended", "RFC 2774")),
      Row(511, Entry("Network Authentication Required", "RFC 6585")),
      Row(598, Entry("Network read timeout error", "Unknown")),
      Row(599, Entry("Network connect timeout error", "Unknown"))
    ]

  /** The whole table, in dictionary order. */
  const StatusCodes: seq<Row> :=
    Informational + Successful + Redirection + ClientErrorLow + ClientErrorMid + ClientErrorHigh + ServerError

  /** Codes lie in 100..599 and both strings are non-empty. */
  ghost predicate RowWellFormed(r: Row) {
    100 <= r.code <= 599 && |r.entry.short| > 0 && |r.entry.long| > 0
  }

  /** The status class of a code: its hundreds digit. */
  function Class(code: int): int {
    code / 100
  }

  /** A non-empty run of well-formed rows whose codes go up from `first`
      to `last`, each above the one before. */
  ghost predicate Group(rows: seq<Row>, first: int, last: int) {
    && rows != []
    && rows[0].code == first && rows[|rows| - 1].code == last
    && (forall i :: 0 <= i < |rows| ==> RowWellFormed(rows[i]))
    && (forall i :: 0 < i < |rows| ==> rows[i - 1].code < rows[i].code)
  }

  lemma InformationalGroup()
    ensures Group(Informational, 100, 102)
  {
  }

  lemma SuccessfulGroup()
    ensures Group(Successful, 200, 226)
  {
  }

  lemma RedirectionGroup()
    ensures Group(Redirection, 300, 308)
  {
  }

  lemma ClientErrorLowGroup()
    ensures Group(ClientErrorLow, 400, 408)
  {
  }

  lemma ClientErrorMidGroup()
    ensures Group(ClientErrorMid, 409, 417)
  {
  }

  lemma ClientErrorHighGroup()
    ensures Group(ClientErrorHigh, 418, 499)
  {
    ClientErrorRecentGroup();
    ClientErrorVendorGroup();
    JoinGroups(ClientErrorRecent, ClientErrorVendor, 418, 431, 440, 499);
  }

  lemma ClientErrorRecentGroup()
    ensures Group(ClientErrorRecent, 418, 431)
  {
  }

  lemma ClientErrorVendorGroup()
    ensures Group(ClientErrorVendor, 440, 499)
  {
  }

  lemma ServerErrorGroup()
    ensures Group(ServerError, 500, 599)
  {
  }

  /** Two groups, the second starting above the end of the first, make one. */
  lemma JoinGroups(a: seq<Row>, b: seq<Row>, af: int, al: int, bf: int, bl: int)
    requires Group(a, af, al) && Group(b, bf, bl) && al < bf
    ensures Group(a + b, af, bl)
  {
    var ab := a + b;
    forall i | 0 < i < |ab|
      ensures ab[i - 1].code < ab[i].code
    {
      if i < |a| {
        assert ab[i - 1] == a[i - 1] && ab[i] == a[i];
      } else if i == |a| {
        assert ab[i - 1] == a[|a| - 1] && ab[i] == b[0];
      } else {
        assert ab[i - 1] == b[i - 1 - |a|] && ab[i] == b[i - |a|];
      }
    }
    forall i | 0 <= i < |ab|
      ensures RowWellFormed(ab[i])
    {
      if i < |a| {
        assert ab[i] == a[i];
      } else {
        assert ab[i] == b[i - |a|];
      }
    }
  }

  lemma JoinAll(a: seq<Row>, b: seq<Row>, c: seq<Row>, d: seq<Row>, e: seq<Row>, f: seq<Row>, g: seq<Row>)
    requires Group(a, 100, 102)
    requires Group(b, 200, 226)
    requires Group(c, 300, 308)
    requires Group(d, 400, 408)
    requires Group(e, 409, 417)
    requires Group(f, 418, 499)
    requires Group(g, 500, 599)
    ensures Group(a + b + c + d + e + f + g, 100, 599)
  {
    JoinGroups(a, b, 100, 102, 200, 226);
    JoinGroups(a + b, c, 100, 226, 300, 308);
    JoinGroups(a + b + c, d, 100, 308, 400, 408);
    JoinGroups(a + b + c + d, e, 100, 408, 409, 417);
    JoinGroups(a + b + c + d + e, f, 100, 417, 418, 499);
    JoinGroups(a + b + c + d + e + f, g, 100, 499, 500, 599);
  }

  /** The keys of `rows`, in order. */
  function Codes(rows: seq<Row>): (r: seq<int>)
    ensures |r| == |rows| && forall i :: 0 <= i < |rows| ==> r[i] == rows[i].code
  {
    seq(|rows|, i requires 0 <= i < |rows| => rows[i].code)
  }

  /** Each code above the one before implies each code above all those before. */
  lemma {:induction false} AdjacentToStrictlyAscending(rows: seq<Row>)
    requires forall i :: 0 < i < |rows| ==> rows[i - 1].code < rows[i].code
    ensures StrictlyAscending(Codes(rows))
    decreases |rows|
  {
    if rows != [] {
      AdjacentToStrictlyAscending(rows[1..]);
      var c := Codes(rows);
      assert c[1..] == Codes(rows[1..]);
      forall j | 1 < j < |c|
        ensures c[0] < c[j]
      {
        assert c[1..][0] < c[1..][j - 1];
      }
    }
  }

  /** The literal's groups, each checked on its own, joined in order. */
  lemma TableGroup()
    ensures Group(StatusCodes, 100, 599)
  {
    InformationalGroup();
    SuccessfulGroup();
    RedirectionGroup();
    ClientErrorLowGroup();
    ClientErrorMidGroup();
    ClientErrorHighGroup();
    ServerErrorGroup();
    JoinAll(Informational, Successful, Redirection, ClientErrorLow, ClientErrorMid, ClientErrorHigh, ServerError);
  }

  /** What the tool relies on about its table: every key in 100..599,
      every reason phrase and explanation non-empty, and the keys distinct
      and ascending in the order the rows are listed, as the keys of a
      dictionary literal written in ascending order are. */
  ghost predicate ValidTable(table: seq<Row>) {
    && (forall i :: 0 <= i < |table| ==> RowWellFormed(table[i]))
    && StrictlyAscending(Codes(table))
  }

  /** `STATUS_CODES` is such a table. */
  lemma TableWellFormed()
    ensures ValidTable(StatusCodes)
  {
    TableGroup();
    AdjacentToStrictlyAscending(StatusCodes);
  }

  /** The rows of one status class. */
  function InClass(digit: int): Row -> bool {
    (r: Row) => Class(r.code) == digit
  }

  /** In a group whose first and last codes share a class, every code does. */
  lemma GroupInClass(rows: seq<Row>, first: int, last: int)
    requires Group(rows, first, last) && Class(first) == Class(last)
    ensures forall i :: 0 <= i < |rows| ==> InClass(Class(first))(rows[i])
  {
    AdjacentToStrictlyAscending(rows);
    forall i | 0 <= i < |rows|
      ensures Class(rows[i].code) == Class(first)
    {
      assert Codes(rows)[0] <= Codes(rows)[i] <= Codes(rows)[|rows| - 1];
    }
  }

  /** Selecting one class from a group of another class keeps nothing, and
      from a group of that class keeps it whole. */
  lemma GroupFilter(rows: seq<Row>, first: int, last: int, digit: int)
    requires Group(rows, first, last) && Class(first) == Class(last)
    ensures FilterRows(rows, InClass(digit)) == if Class(first) == digit then rows else []
  {
    GroupInClass(rows, first, last);
    if Class(first) == digit {
      FilterRowsAll(rows, InClass(digit));
    } else {
      FilterRowsNone(rows, InClass(digit));
    }
  }

  /** Filtering a concatenation filters each part. */
  lemma {:induction false} FilterRowsConcat(a: seq<Row>, b: seq<Row>, keep: Row -> bool)
    ensures FilterRows(a + b, keep) == FilterRows(a, keep) + FilterRows(b, keep)
    decreases |a|
  {
    if a != [] {
      assert (a + b)[0] == a[0] && (a + b)[1..] == a[1..] + b;
      FilterRowsConcat(a[1..], b, keep);
      if keep(a[0]) {
        assert FilterRows(a + b, keep) == [a[0]] + FilterRows(a[1..] + b, keep);
      } else {
        assert FilterRows(a + b, keep) == FilterRows(a[1..] + b, keep);
      }
    } else {
      assert a + b == b;
    }
  }

  /** The rows of each status class are the groups of the table literal that
      list them: 1xx informational, 2xx successful, 3xx redirection, 4xx
      client errors, 5xx server errors, and nothing else. */
  lemma ClassRows(digit: int)
    ensures FilterRows(StatusCodes, InClass(digit)) ==
      if digit == 1 then Informational
      else if digit == 2 then Successful
      else if digit == 3 then Redirection
      else if digit == 4 then ClientErrorLow + ClientErrorMid + ClientErrorHigh
      else if digit == 5 then ServerError
      else []
  {
    InformationalGroup();
    SuccessfulGroup();
    RedirectionGroup();
    ClientErrorLowGroup();
    ClientErrorMidGroup();
    ClientErrorHighGroup();
    ServerErrorGroup();
    ClassesInOrder(Informational, Successful, Redirection, ClientErrorLow, ClientErrorMid, ClientErrorHigh, ServerError, digit);
  }

  lemma ClassesInOrder(a: seq<Row>, b: seq<Row>, c: seq<Row>, d: seq<Row>, e: seq<Row>, f: seq<Row>, g: seq<Row>, digit: int)
    requires Group(a, 100, 102)
    requires Group(b, 200, 226)
    requires Group(c, 300, 308)
    requires Group(d, 400, 408)
    requires Group(e, 409, 417)
    requires Group(f, 418, 499)
    requires Group(g, 500, 599)
    ensures FilterRows(a + b + c + d + e + f + g, InClass(digit)) ==
      if digit == 1 then a
      else if digit == 2 then b
      else if digit == 3 then c
      else if digit == 4 then d + e + f
      else if digit == 5 then g
      else []
  {
    var keep := InClass(digit);
    GroupFilter(a, 100, 102, digit);
    GroupFilter(b, 200, 226, digit);
    GroupFilter(c, 300, 308, digit);
    GroupFilter(d, 400, 408, digit);
    GroupFilter(e, 409, 417, digit);
    GroupFilter(f, 418, 499, digit);
    GroupFilter(g, 500, 599, digit);
    FilterSevenParts(a, b, c, d, e, f, g, keep);
    SevenPieces(FilterRows(a, keep), FilterRows(b, keep), FilterRows(c, keep), FilterRows(d, keep),
                FilterRows(e, keep), FilterRows(f, keep), FilterRows(g, keep), a, b, c, d, e, f, g, digit);
  }

  lemma FilterSevenParts(a: seq<Row>, b: seq<Row>, c: seq<Row>, d: seq<Row>, e: seq<Row>, f: seq<Row>, g: seq<Row>, keep: Row -> bool)
    ensures FilterRows(a + b + c + d + e + f + g, keep) ==
      FilterRows(a, keep) + FilterRows(b, keep) + FilterRows(c, keep) + FilterRows(d, keep) + FilterRows(e, keep) + FilterRows(f, keep) + FilterRows(g, keep)
  {
    FilterRowsConcat(a, b, keep);
    FilterRowsConcat(a + b, c, keep);
    FilterRowsConcat(a + b + c, d, keep);
    FilterRowsConcat(a + b + c + d, e, keep);
    FilterRowsConcat(a + b + c + d + e, f, keep);
    FilterRowsConcat(a + b + c + d + e + f, g, keep);
  }

  lemma SevenPieces(fa: seq<Row>, fb: seq<Row>, fc: seq<Row>, fd: seq<Row>, fe: seq<Row>, ff: seq<Row>, fg: seq<Row>,
                    a: seq<Row>, b: seq<Row>, c: seq<Row>, d: seq<Row>, e: seq<Row>, f: seq<Row>, g: seq<Row>, digit: int)
    requires fa == (if digit == 1 then a else []) && fb == (if digit == 2 then b else [])
    requires fc == (if digit == 3 then c else []) && fd == (if digit == 4 then d else [])
    requires fe == (if digit == 4 then e else []) && ff == (if digit == 4 then f else [])
    requires fg == (if digit == 5 then g else [])
    ensures fa + fb + fc + fd + fe + ff + fg ==
      if digit == 1 then a
      else if digit == 2 then b
      else if digit == 3 then c
      else if digit == 4 then d + e + f
      else if digit == 5 then g
      else []
  {
    if digit == 1 {
      assert fa + fb + fc + fd + fe + ff + fg == a + [] + [] + [] + [] + [] + [];
    } else if digit == 2 {
      assert fa + fb + fc + fd + fe + ff + fg == [] + b + [] + [] + [] + [] + [];
    } else if digit == 3 {
      assert fa + fb + fc + fd + fe + ff + fg == [] + [] + c + [] + [] + [] + [];
    } else if digit == 4 {
      assert fa + fb + fc + fd + fe + ff + fg == [] + [] + [] + d + e + f + [];
    } else if digit == 5 {
      assert fa + fb + fc + fd + fe + ff + fg == [] + [] + [] + [] + [] + [] + g;
    }
  }

  /** A class selects some row of the table exactly when it is one of 1xx to 5xx. */
  lemma ClassSelection(digit: int)
    ensures FilterRows(StatusCodes, InClass(digit)) != [] <==> 1 <= digit <= 5
  {
    ClassRows(digit);
  }

  /** No code below 100 is a key of a valid table. */
  lemma BelowTable(table: seq<Row>, code: int)
    requires ValidTable(table) && code < 100
    ensures code !in Codes(table)
  {
  }

  /** `rows[code]` for a list of key/value pairs: the entry of the first row
      carrying `code`, or `None` where Python raises `KeyError`. */
  function Lookup(rows: seq<Row>, code: int): (r: Option<Entry>)
    ensures r.Some? <==> code in Codes(rows)
    ensures r.Some? ==> Row(code, r.value) in rows
    decreases |rows|
  {
    if rows == [] then None
    else if rows[0].code == code then Some(rows[0].entry)
    else
      assert Codes(rows) == [rows[0].code] + Codes(rows[1..]);
      Lookup(rows[1..], code)
  }

  /** With distinct keys, looking up a row's code finds that row's entry. */
  lemma LookupFindsRow(rows: seq<Row>, r: Row)
    requires StrictlyAscending(Codes(rows))
    requires r in rows
    ensures Lookup(rows, r.code) == Some(r.entry)
  {
  }

  /** The rows `keep` accepts, in table order: a list comprehension over
      the dictionary's items. */
  function FilterRows(rows: seq<Row>, keep: Row -> bool): (r: seq<Row>)
    ensures forall x :: x in r <==> x in rows && keep(x)
    decreases |rows|
  {
    if rows == [] then []
    else if keep(rows[0]) then [rows[0]] + FilterRows(rows[1..], keep)
    else FilterRows(rows[1..], keep)
  }

  /** Two tests that agree on every row select the same rows. */
  lemma {:induction false} FilterRowsAgree(rows: seq<Row>, f: Row -> bool, g: Row -> bool)
    requires forall i :: 0 <= i < |rows| ==> f(rows[i]) == g(rows[i])
    ensures FilterRows(rows, f) == FilterRows(rows, g)
    decreases |rows|
  {
    if rows != [] {
      FilterRowsAgree(rows[1..], f, g);
    }
  }

  /** A test that accepts every row keeps the list as it is. */
  lemma {:induction false} FilterRowsAll(rows: seq<Row>, keep: Row -> bool)
    requires forall i :: 0 <= i < |rows| ==> keep(rows[i])
    ensures FilterRows(rows, keep) == rows
    decreases |rows|
  {
    if rows != [] {
      FilterRowsAll(rows[1..], keep);
    }
  }

  /** A test that rejects every row keeps nothing. */
  lemma {:induction false} FilterRowsNone(rows: seq<Row>, keep: Row -> bool)
    requires forall j :: 0 <= j < |rows| ==> !keep(rows[j])
    ensures FilterRows(rows, keep) == []
    decreases |rows|
  {
    if rows != [] {
      FilterRowsNone(rows[1..], keep);
    }
  }

  /** With distinct keys, a test that accepts exactly the rows carrying one
      row's code keeps that row alone. */
  lemma {:induction false} FilterRowsSingle(rows: seq<Row>, keep: Row -> bool, i: int)
    requires StrictlyAscending(Codes(rows)) && 0 <= i < |rows|
    requires forall j :: 0 <= j < |rows| ==> keep(rows[j]) == (rows[j].code == rows[i].code)
    ensures FilterRows(rows, keep) == [rows[i]]
    decreases |rows|
  {
    var tail := rows[1..];
    assert Codes(tail) == Codes(rows)[1..];
    if i == 0 {
      forall j | 0 <= j < |tail|
        ensures !keep(tail[j])
      {
        assert tail[j] == rows[j + 1] && Codes(rows)[0] < Codes(rows)[j + 1];
      }
      FilterRowsNone(tail, keep);
    } else {
      assert Codes(rows)[0] < Codes(rows)[i];
      assert forall j :: 0 <= j < |tail| ==> tail[j] == rows[j + 1];
      FilterRowsSingle(tail, keep, i - 1);
    }
  }

  /** Filtering keeps the keys ascending. */
  lemma {:induction false} FilterRowsAscending(rows: seq<Row>, keep: Row -> bool)
    requires StrictlyAscending(Codes(rows))
    ensures StrictlyAscending(Codes(FilterRows(rows, keep)))
    decreases |rows|
  {
    if rows != [] {
      var tail := rows[1..];
      assert Codes(tail) == Codes(rows)[1..];
      FilterRowsAscending(tail, keep);
      if keep(rows[0]) {
        forall j | 0 <= j < |tail|
          ensures rows[0].code < tail[j].code
        {
          assert tail[j] == rows[j + 1] && Codes(rows)[0] < Codes(rows)[j + 1];
        }
        FilterRowsAbove(tail, keep, rows[0].code);
        ConsAbove(rows[0], FilterRows(tail, keep));
      }
    }
  }

  /** What bounds every code of `rows` from below bounds every code it keeps. */
  lemma FilterRowsAbove(rows: seq<Row>, keep: Row -> bool, c: int)
    requires forall j :: 0 <= j < |rows| ==> c < rows[j].code
    ensures forall k :: 0 <= k < |FilterRows(rows, keep)| ==> c < FilterRows(rows, keep)[k].code
  {
    var kept := FilterRows(rows, keep);
    forall k | 0 <= k < |kept|
      ensures c < kept[k].code
    {
      assert kept[k] in rows;
    }
  }

  /** A row below every row of an ascending run can go in front of it. */
  lemma ConsAbove(r: Row, rows: seq<Row>)
    requires StrictlyAscending(Codes(rows))
    requires forall k :: 0 <= k < |rows| ==> r.code < rows[k].code
    ensures StrictlyAscending(Codes([r] + rows))
  {
    var c := Codes([r] + rows);
    assert forall k :: 0 < k < |c| ==> c[k] == Codes(rows)[k - 1];
  }
}
