/** The parser of PDO data source names, `type:key=value;key=value`. */
module Dsn {
  import opened Common

  datatype Dsn = Dsn(dbType: string, dataSource: string, peer: string)

  datatype DsnError = UnknownDataSource | UnknownValue

  /** The first position of c, or the length of s. */
  function IndexOf(s: string, c: char): (i: nat)
    ensures i <= |s| && c !in s[..i] && (i < |s| ==> s[i] == c)
  {
    if s == [] || s[0] == c then 0
    else
      var i := 1 + IndexOf(s[1..], c);
      assert s[..i] == [s[0]] + s[1..][..i - 1];
      i
  }

  /** Everything between separators, empty pieces included. */
  function Split(s: string, c: char): (r: seq<string>)
    ensures r != []
    decreases |s|
  {
    var i := IndexOf(s, c);
    if i == |s| then [s] else [s[..i]] + Split(s[i + 1..], c)
  }

  function DefaultPort(dbType: string): string {
    if dbType == "mysql" then "3306"
    else if dbType == "oci" then "1521"
    else if dbType == "sqlsrv" then "1433"
    else if dbType == "pgsql" then "5432"
    else "0"
  }

  function KeyOf(segment: string): string {
    segment[..IndexOf(segment, '=')]
  }

  function ValueOf(segment: string): string
    requires '=' in segment
  {
    segment[IndexOf(segment, '=') + 1..]
  }

  predicate Readable(segments: seq<string>) {
    forall i :: 0 <= i < |segments| ==> segments[i] == "" || '=' in segments[i]
  }

  /** The value of the last segment with this key. */
  function LastValue(segments: seq<string>, key: string, otherwise: string): string {
    if segments == [] then otherwise
    else if '=' in Last(segments) && KeyOf(Last(segments)) == key then ValueOf(Last(segments))
    else LastValue(Init(segments), key, otherwise)
  }

  function PeerOf(host: string, port: string): string {
    if ':' in host then host else host + ":" + port
  }

  /** What a DSN stands for. */
  function Meaning(s: string): Result<Dsn, DsnError> {
    if ':' !in s then Err(UnknownDataSource)
    else
      var dbType, dataSource := s[..IndexOf(s, ':')], s[IndexOf(s, ':') + 1..];
      var segments := Split(dataSource, ';');
      if !Readable(segments) then Err(UnknownValue)
      else Ok(Dsn(dbType, dataSource,
                  PeerOf(LastValue(segments, "host", "unknown"), LastValue(segments, "port", DefaultPort(dbType)))))
  }

  lemma Occurs(s: string, c: char)
    ensures IndexOf(s, c) == |s| <==> c !in s
  {
    assert s[..|s|] == s;
  }

  lemma OneMoreSegment(segments: seq<string>, n: nat, key: string, otherwise: string)
    requires n < |segments|
    ensures LastValue(segments[..n + 1], key, otherwise)
         == if '=' in segments[n] && KeyOf(segments[n]) == key then ValueOf(segments[n])
            else LastValue(segments[..n], key, otherwise)
    ensures Readable(segments[..n + 1]) <==> Readable(segments[..n]) && (segments[n] == "" || '=' in segments[n])
  {
    assert Init(segments[..n + 1]) == segments[..n] && Last(segments[..n + 1]) == segments[n];
    assert forall i :: 0 <= i < n ==> segments[..n + 1][i] == segments[..n][i];
  }

  /** `Dsn::from_str`, with its loop over the segments. */
  method FromStr(s: string) returns (r: Result<Dsn, DsnError>)
    ensures r == Meaning(s)
  {
    var colon := IndexOf(s, ':');
    Occurs(s, ':');
    if colon == |s| {
      return Err(UnknownDataSource);
    }
    var dbType, dataSource := s[..colon], s[colon + 1..];
    var host := "unknown";
    var port := DefaultPort(dbType);
    var segments := Split(dataSource, ';');
    var n := 0;
    while n < |segments|
      invariant 0 <= n <= |segments|
      invariant Readable(segments[..n])
      invariant host == LastValue(segments[..n], "host", "unknown")
      invariant port == LastValue(segments[..n], "port", DefaultPort(dbType))
    {
      var segment := segments[n];
      OneMoreSegment(segments, n, "host", "unknown");
      OneMoreSegment(segments, n, "port", DefaultPort(dbType));
      n := n + 1;
      if segment == "" {
        continue;
      }
      var equals := IndexOf(segment, '=');
      Occurs(segment, '=');
      if equals == |segment| {
        return Err(UnknownValue);
      }
      var k, v := segment[..equals], segment[equals + 1..];
      if k == "host" {
        host := v;
      } else if k == "port" {
        port := v;
      }
    }
    assert segments[..n] == segments;
    var peer := host;
    if ':' !in host {
      peer := host + ":" + port;
    }
    return Ok(Dsn(dbType, dataSource, peer));
  }

  // ---- printing ----

  /** A segment: empty, or a key and a value. */
  datatype Item = Empty | Pair(key: string, value: string)

  predicate Printable(item: Item) {
    item.Pair? ==> '=' !in item.key && ';' !in item.key && ';' !in item.value
  }

  function Show(item: Item): string {
    match item
    case Empty => ""
    case Pair(k, v) => k + "=" + v
  }

  /** The pieces with semicolons between them. */
  function Glue(pieces: seq<string>): string
    requires pieces != []
  {
    if |pieces| == 1 then pieces[0] else pieces[0] + ";" + Glue(pieces[1..])
  }

  function Shown(items: seq<Item>): seq<string> {
    seq(|items|, i requires 0 <= i < |items| => Show(items[i]))
  }

  function Join(items: seq<Item>): string
    requires items != []
  {
    Glue(Shown(items))
  }

  function Print(dbType: string, items: seq<Item>): string
    requires items != []
  {
    dbType + ":" + Join(items)
  }

  lemma {:induction false} IndexOfIs(s: string, c: char, i: nat)
    requires i <= |s| && c !in s[..i] && (i < |s| ==> s[i] == c)
    ensures IndexOf(s, c) == i
  {
    if i > 0 {
      assert s[0] in s[..i] && s[1..][..i - 1] == s[..i][1..];
      IndexOfIs(s[1..], c, i - 1);
    }
  }

  lemma SplitAtFirst(first: string, rest: string)
    requires ';' !in first
    ensures Split(first + ";" + rest, ';') == [first] + Split(rest, ';')
  {
    var s := first + ";" + rest;
    assert s[..|first|] == first && s[|first| + 1..] == rest;
    IndexOfIs(s, ';', |first|);
  }

  lemma {:induction false} SplitUndoesGlue(pieces: seq<string>)
    requires pieces != [] && forall i :: 0 <= i < |pieces| ==> ';' !in pieces[i]
    ensures Split(Glue(pieces), ';') == pieces
  {
    if |pieces| == 1 {
      var s := pieces[0];
      assert s[..|s|] == s;
      IndexOfIs(s, ';', |s|);
    } else {
      SplitUndoesGlue(pieces[1..]);
      SplitAtFirst(pieces[0], Glue(pieces[1..]));
    }
  }

  lemma {:induction false} GlueUndoesSplit(s: string)
    ensures Glue(Split(s, ';')) == s
    ensures forall i :: 0 <= i < |Split(s, ';')| ==> ';' !in Split(s, ';')[i]
    decreases |s|
  {
    var i := IndexOf(s, ';');
    if i < |s| {
      GlueUndoesSplit(s[i + 1..]);
      GlueOneMore(s[..i], Split(s[i + 1..], ';'));
      SplitAt(s, i);
    } else {
      assert s[..i] == s;
    }
  }

  lemma GlueOneMore(first: string, rest: seq<string>)
    requires rest != []
    ensures Glue([first] + rest) == first + ";" + Glue(rest)
  {
    assert ([first] + rest)[1..] == rest;
  }

  lemma SplitAt(s: string, i: nat)
    requires i < |s| && s[i] == ';'
    ensures s == s[..i] + ";" + s[i + 1..]
  {
  }

  lemma ReadsBack(item: Item)
    requires Printable(item) && item.Pair?
    ensures '=' in Show(item) && KeyOf(Show(item)) == item.key && ValueOf(Show(item)) == item.value
  {
    var s := Show(item);
    assert s[|item.key|] == '=';
    assert s[..|item.key|] == item.key;
    IndexOfIs(s, '=', |item.key|);
  }

  /** The value of the last item with this key. */
  function LastItem(items: seq<Item>, key: string, otherwise: string): string {
    if items == [] then otherwise
    else if Last(items).Pair? && Last(items).key == key then Last(items).value
    else LastItem(Init(items), key, otherwise)
  }

  lemma {:induction false} LastValueOfShown(items: seq<Item>, key: string, otherwise: string)
    requires forall i :: 0 <= i < |items| ==> Printable(items[i])
    ensures LastValue(Shown(items), key, otherwise) == LastItem(items, key, otherwise)
  {
    if items != [] {
      LastValueOfShown(Init(items), key, otherwise);
      assert Init(Shown(items)) == Shown(Init(items)) && Last(Shown(items)) == Show(Last(items));
      if Last(items).Pair? { ReadsBack(Last(items)); }
    }
  }

  lemma TypeReadsBack(dbType: string, rest: string)
    requires ':' !in dbType
    ensures var s := dbType + ":" + rest;
            ':' in s && s[..IndexOf(s, ':')] == dbType && s[IndexOf(s, ':') + 1..] == rest
  {
    var s := dbType + ":" + rest;
    assert s[|dbType|] == ':';
    assert s[..|dbType|] == dbType;
    IndexOfIs(s, ':', |dbType|);
  }

  lemma ShownIsReadable(items: seq<Item>)
    requires forall i :: 0 <= i < |items| ==> Printable(items[i])
    ensures Readable(Shown(items)) && forall i :: 0 <= i < |items| ==> ';' !in Shown(items)[i]
  {
    forall i | 0 <= i < |items|
      ensures (Shown(items)[i] == "" || '=' in Shown(items)[i]) && ';' !in Shown(items)[i]
    {
      if items[i].Pair? { ReadsBack(items[i]); }
    }
  }

  /** Parsing undoes printing: the data source is everything after the type, and
      the peer is the last host, with a port unless it has a colon of its own. */
  lemma MeaningOfPrint(dbType: string, items: seq<Item>)
    requires ':' !in dbType
    requires items != [] && forall i :: 0 <= i < |items| ==> Printable(items[i])
    ensures Meaning(Print(dbType, items))
         == Ok(Dsn(dbType, Join(items),
                   PeerOf(LastItem(items, "host", "unknown"), LastItem(items, "port", DefaultPort(dbType)))))
  {
    TypeReadsBack(dbType, Join(items));
    ShownIsReadable(items);
    SplitUndoesGlue(Shown(items));
    LastValueOfShown(items, "host", "unknown");
    LastValueOfShown(items, "port", DefaultPort(dbType));
  }

  function ItemOf(segment: string): Item
    requires segment == "" || '=' in segment
  {
    if segment == "" then Empty else Pair(KeyOf(segment), ValueOf(segment))
  }

  function ItemsOf(segments: seq<string>): seq<Item>
    requires Readable(segments)
  {
    seq(|segments|, i requires 0 <= i < |segments| => ItemOf(segments[i]))
  }

  lemma ShowOfItem(segment: string)
    requires segment == "" || '=' in segment
    ensures Show(ItemOf(segment)) == segment
    ensures ';' !in segment ==> Printable(ItemOf(segment))
  {
    var i := IndexOf(segment, '=');
    assert segment[..|segment|] == segment;
    if i < |segment| {
      assert segment == segment[..i] + "=" + segment[i + 1..];
    }
  }

  lemma MeaningfulIsPrinted(s: string)
    requires Meaning(s).Ok?
    ensures exists dbType, items :: IsPrinting(s, dbType, items)
  {
    var i := IndexOf(s, ':');
    assert s[..|s|] == s;
    var segments := Split(s[i + 1..], ';');
    var items := ItemsOf(segments);
    GlueUndoesSplit(s[i + 1..]);
    forall j | 0 <= j < |items|
      ensures Printable(items[j]) && Show(items[j]) == segments[j]
    {
      ShowOfItem(segments[j]);
    }
    PrintedFrom(s, i, items, segments);
  }

  lemma PrintedFrom(s: string, i: nat, items: seq<Item>, segments: seq<string>)
    requires i < |s| && s[i] == ':' && ':' !in s[..i]
    requires items != [] && |items| == |segments|
    requires forall j :: 0 <= j < |items| ==> Printable(items[j]) && Show(items[j]) == segments[j]
    requires Glue(segments) == s[i + 1..]
    ensures IsPrinting(s, s[..i], items)
  {
    assert Shown(items) == segments;
    assert s == s[..i] + ":" + s[i + 1..];
  }

  /** A string has a meaning exactly when it is the printing of a type without a
      colon and a list of empty or key=value segments. */
  lemma MeaningfulExactly(s: string)
    ensures Meaning(s).Ok? <==> exists dbType, items :: IsPrinting(s, dbType, items)
  {
    if Meaning(s).Ok? {
      MeaningfulIsPrinted(s);
    }
    forall dbType, items | IsPrinting(s, dbType, items)
      ensures Meaning(s).Ok?
    {
      MeaningOfPrint(dbType, items);
    }
  }

  ghost predicate IsPrinting(s: string, dbType: string, items: seq<Item>) {
    ':' !in dbType && items != [] && (forall i :: 0 <= i < |items| ==> Printable(items[i])) && s == Print(dbType, items)
  }

  /** The value that counts for a key: of the last item with it, at i; or, if no item
      has it, at the end of the list, what stands in for it. */
  ghost predicate Counts(items: seq<Item>, key: string, i: nat) {
    && i <= |items| && (i < |items| ==> items[i].Pair? && items[i].key == key)
    && forall k :: (if i < |items| then i < k else 0 <= k) && k < |items| ==> !(items[k].Pair? && items[k].key == key)
  }

  lemma {:induction false} LastItemIs(items: seq<Item>, key: string, otherwise: string, i: nat)
    requires Counts(items, key, i)
    ensures LastItem(items, key, otherwise) == if i < |items| then items[i].value else otherwise
  {
    if items != [] && i != |items| - 1 {
      var j := if i == |items| then i - 1 else i;
      assert forall k :: 0 <= k < |Init(items)| ==> Init(items)[k] == items[k];
      assert Last(items) == items[|items| - 1];
      LastItemIs(Init(items), key, otherwise, j);
    }
  }

  /** The peer that a host and a port, if there is one, make. */
  ghost predicate IsPeer(dbType: string, host: string, port: Option<string>, peer: string) {
    if ':' in host then peer == host
    else if port.Some? then peer == host + ":" + port.value
    else
      && (dbType == "mysql" ==> peer == host + ":" + "3306")
      && (dbType == "oci" ==> peer == host + ":" + "1521")
      && (dbType == "sqlsrv" ==> peer == host + ":" + "1433")
      && (dbType == "pgsql" ==> peer == host + ":" + "5432")
      && (dbType != "mysql" && dbType != "oci" && dbType != "sqlsrv" && dbType != "pgsql" ==> peer == host + ":" + "0")
  }

  lemma PeerOfIs(dbType: string, host: string, port: Option<string>)
    ensures IsPeer(dbType, host, port, PeerOf(host, if port.Some? then port.value else DefaultPort(dbType)))
  {
  }

  /** The peer of a printed DSN, said of its items: the last host, or `unknown`; with
      the last port behind it, or the driver's own, unless the host has a colon. */
  lemma PeerIs(dbType: string, items: seq<Item>, h: nat, p: nat)
    requires ':' !in dbType && items != [] && forall i :: 0 <= i < |items| ==> Printable(items[i])
    requires Counts(items, "host", h) && Counts(items, "port", p)
    ensures var m := Meaning(Print(dbType, items));
            && m.Ok?
            && IsPeer(dbType, if h < |items| then items[h].value else "unknown",
                      if p < |items| then Some(items[p].value) else None, m.value.peer)
  {
    MeaningOfPrint(dbType, items);
    LastItemIs(items, "host", "unknown", h);
    LastItemIs(items, "port", DefaultPort(dbType), p);
    PeerOfIs(dbType, if h < |items| then items[h].value else "unknown",
             if p < |items| then Some(items[p].value) else None);
  }
}
