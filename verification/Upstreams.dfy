/** Addresses, and the ordered upstream list one command names. */
module Upstreams {
  import opened Options

  /** A socket address; port 0 asks the system to choose one. */
  datatype Addr = Addr(ip: int, port: nat)

  /** One upstream: the text the operator wrote and the socket it is dialled at. */
  datatype Upstream = Upstream(written: string, socket: Addr)

  datatype Unusable = Invalid(written: string) | Duplicate(socket: Addr)

  /** Reading one address is a library's business: any total reading will do. */
  type Reader = string -> Option<Addr>

  predicate Unlisted(list: seq<Upstream>, socket: Addr) {
    forall k :: 0 <= k < |list| ==> list[k].socket != socket
  }

  /** Each socket at most once. */
  predicate Distinct(list: seq<Upstream>) {
    forall j, k :: 0 <= j < k < |list| ==> list[j].socket != list[k].socket
  }

  /** `list` is what the texts read as, in the order they were written. */
  ghost predicate Reads(reader: Reader, texts: seq<string>, list: seq<Upstream>) {
    && |list| == |texts|
    && forall k :: 0 <= k < |texts| ==> list[k].written == texts[k] && reader(texts[k]) == Some(list[k].socket)
  }

  /** The verdict on a list of texts, reading from the front. */
  function Parsed(reader: Reader, texts: seq<string>): Result<seq<Upstream>, Unusable> {
    if texts == [] then Ok([])
    else
      match Parsed(reader, texts[..|texts| - 1])
      case Err(failure) => Err(failure)
      case Ok(list) =>
        var text := texts[|texts| - 1];
        match reader(text)
        case None => Err(Invalid(text))
        case Some(socket) =>
          if Unlisted(list, socket) then Ok(list + [Upstream(text, socket)]) else Err(Duplicate(socket))
  }

  /** A list is accepted exactly when every text reads and no two dial the same socket, and then it keeps the order. */
  lemma {:induction false} ParsedExactly(reader: Reader, texts: seq<string>, list: seq<Upstream>)
    ensures Parsed(reader, texts) == Ok(list) <==> Reads(reader, texts, list) && Distinct(list)
  {
    if texts != [] {
      var n := |texts| - 1;
      if |list| == n + 1 {
        ParsedExactly(reader, texts[..n], list[..n]);
        assert list == list[..n] + [list[n]];
      }
      if Parsed(reader, texts[..n]).Ok? {
        ParsedExactly(reader, texts[..n], Parsed(reader, texts[..n]).value);
      }
    }
  }

  lemma {:induction false} FailsEarly(reader: Reader, texts: seq<string>, k: nat)
    requires k <= |texts| && Parsed(reader, texts[..k]).Err?
    ensures Parsed(reader, texts) == Parsed(reader, texts[..k])
    decreases |texts|
  {
    if k == |texts| {
      assert texts[..k] == texts;
    } else {
      assert texts[..|texts| - 1][..k] == texts[..k];
      FailsEarly(reader, texts[..|texts| - 1], k);
    }
  }

  /** Text `k` cannot be taken: it does not read, or it dials a socket an earlier text dials. */
  ghost predicate Offends(reader: Reader, texts: seq<string>, k: nat)
    requires k < |texts|
  {
    reader(texts[k]).None? || exists j :: 0 <= j < k && reader(texts[j]) == reader(texts[k])
  }

  /** A refusal names the first text that cannot be taken, and why. */
  ghost predicate NamesTheFirst(reader: Reader, texts: seq<string>, failure: Unusable) {
    exists k: nat :: k < |texts| && Offends(reader, texts, k)
                     && (forall j: nat :: j < k ==> !Offends(reader, texts, j))
                     && failure == match reader(texts[k])
                                   case None => Invalid(texts[k])
                                   case Some(socket) => Duplicate(socket)
  }

  lemma NoneOffendsWithin(reader: Reader, texts: seq<string>, list: seq<Upstream>)
    requires Parsed(reader, texts) == Ok(list)
    ensures |list| == |texts| && forall j: nat :: j < |texts| ==> !Offends(reader, texts, j)
  {
    ParsedExactly(reader, texts, list);
    forall j: nat, i: nat | i < j < |texts| ensures reader(texts[i]) != reader(texts[j]) {
      assert list[i].socket != list[j].socket;
    }
  }

  lemma OffendsInPrefix(reader: Reader, texts: seq<string>, n: nat, k: nat)
    requires k < n <= |texts|
    ensures Offends(reader, texts[..n], k) <==> Offends(reader, texts, k)
  {
    if j :| 0 <= j < k && reader(texts[j]) == reader(texts[k]) {
      assert reader(texts[..n][j]) == reader(texts[..n][k]);
    }
  }

  /** A list is refused with the reason, and the text or socket, of the first text that cannot be taken. */
  lemma {:induction false} RefusalNamesTheFirst(reader: Reader, texts: seq<string>)
    requires Parsed(reader, texts).Err?
    ensures NamesTheFirst(reader, texts, Parsed(reader, texts).error)
  {
    var n: nat := |texts| - 1;
    var before := texts[..n];
    if Parsed(reader, before).Err? {
      RefusalNamesTheFirst(reader, before);
      var k: nat :| k < n && Offends(reader, before, k) && (forall j: nat :: j < k ==> !Offends(reader, before, j))
                    && Parsed(reader, before).error == match reader(before[k])
                                                       case None => Invalid(before[k])
                                                       case Some(socket) => Duplicate(socket);
      forall j: nat | j <= k ensures Offends(reader, before, j) == Offends(reader, texts, j) {
        OffendsInPrefix(reader, texts, n, j);
      }
    } else {
      var list := Parsed(reader, before).value;
      NoneOffendsWithin(reader, before, list);
      ParsedExactly(reader, before, list);
      forall j: nat | j < n ensures !Offends(reader, texts, j) {
        OffendsInPrefix(reader, texts, n, j);
      }
      if reader(texts[n]).Some? {
        var k :| 0 <= k < |list| && list[k].socket == reader(texts[n]).value;
        assert reader(texts[k]) == reader(texts[n]);
      }
      assert Offends(reader, texts, n);
    }
  }

  method Parse(reader: Reader, first: string, fallbacks: seq<string>) returns (r: Result<seq<Upstream>, Unusable>)
    ensures r == Parsed(reader, [first] + fallbacks)
    ensures r.Ok? <==> exists list :: Reads(reader, [first] + fallbacks, list) && Distinct(list)
    ensures r.Err? ==> NamesTheFirst(reader, [first] + fallbacks, r.error)
  {
    var texts := [first] + fallbacks;
    var entries: seq<Upstream> := [];
    for i := 0 to |texts|
      invariant Parsed(reader, texts[..i]) == Ok(entries)
    {
      assert texts[..i + 1][..i] == texts[..i];
      var read := reader(texts[i]);
      if read.None? {
        FailsEarly(reader, texts, i + 1);
        Rejected(reader, texts);
        RefusalNamesTheFirst(reader, texts);
        return Err(Invalid(texts[i]));
      }
      for j := 0 to |entries|
        invariant forall m :: 0 <= m < j ==> entries[m].socket != read.value
      {
        if entries[j].socket == read.value {
          FailsEarly(reader, texts, i + 1);
          Rejected(reader, texts);
          RefusalNamesTheFirst(reader, texts);
          return Err(Duplicate(read.value));
        }
      }
      entries := entries + [Upstream(texts[i], read.value)];
    }
    assert texts[..|texts|] == texts;
    ParsedExactly(reader, texts, entries);
    return Ok(entries);
  }

  lemma Rejected(reader: Reader, texts: seq<string>)
    requires Parsed(reader, texts).Err?
    ensures !exists list :: Reads(reader, texts, list) && Distinct(list)
  {
    forall list ensures !(Reads(reader, texts, list) && Distinct(list)) {
      ParsedExactly(reader, texts, list);
    }
  }
}
