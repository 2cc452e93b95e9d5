// The two loops that cap a streamed result.
module Streaming {
  import opened Wrappers

  // A record with the bytes of its JSON form, or None when it does not marshal.
  datatype Record<T> = Record(row: T, size: Option<nat>)

  // A cap that is not positive is off.
  datatype Caps = Caps(maxRows: int, maxBytes: int)

  datatype Reason = NotTruncated | RowCap | ByteCap

  datatype Result<T> = Result(records: seq<Record<T>>, truncated: bool, reason: Reason, rowCount: nat, byteCount: nat)

  function SizeOf<T>(rec: Record<T>): nat {
    if rec.size.Some? then rec.size.value else 0
  }

  // The bytes of the rows whose size is known.
  function Measured<T>(rows: seq<Record<T>>): nat {
    if rows == [] then 0 else Measured(rows[..|rows| - 1]) + SizeOf(rows[|rows| - 1])
  }

  // ---------------------------------------------------------------- what the caps allow

  predicate RowsAllowed<T>(rows: seq<Record<T>>, caps: Caps) {
    caps.maxRows > 0 ==> |rows| <= caps.maxRows
  }

  // Every measured row but the first keeps the running total within the cap.
  ghost predicate BytesAllowed<T>(rows: seq<Record<T>>, caps: Caps) {
    caps.maxBytes > 0 ==>
      forall i :: 0 < i < |rows| && rows[i].size.Some? ==> Measured(rows[..i + 1]) <= caps.maxBytes
  }

  ghost predicate Allowed<T>(rows: seq<Record<T>>, caps: Caps) {
    RowsAllowed(rows, caps) && BytesAllowed(rows, caps)
  }

  // The answer to a stream: the longest prefix the caps allow, and which cap the
  // next row breaks. A next row that breaks both is put down to the byte cap.
  ghost predicate IsAnswer<T>(stream: seq<Record<T>>, caps: Caps, r: Result<T>) {
    var n := |r.records|;
    && n <= |stream| && r.records == stream[..n] && r.rowCount == n
    && Allowed(r.records, caps)
    && (r.truncated <==> n < |stream|)
    && r.reason == (if n == |stream| then NotTruncated else if !BytesAllowed(stream[..n + 1], caps) then ByteCap else RowCap)
    && (n < |stream| ==> !Allowed(stream[..n + 1], caps))
    && r.byteCount == (if caps.maxBytes <= 0 then 0
                       else Measured(r.records) + if r.reason == RowCap then SizeOf(stream[n]) else 0)
  }

  // ---------------------------------------------------------------- the two loops

  lemma TakeOneMore<T>(stream: seq<Record<T>>, n: nat, caps: Caps)
    requires n < |stream|
    ensures Measured(stream[..n + 1]) == Measured(stream[..n]) + SizeOf(stream[n])
    ensures BytesAllowed(stream[..n], caps) ==>
      (BytesAllowed(stream[..n + 1], caps)
       <==> !(caps.maxBytes > 0 && n > 0 && stream[n].size.Some? && Measured(stream[..n]) + stream[n].size.value > caps.maxBytes))
  {
    hide Measured;
    var more := stream[..n + 1];
    assert Measured(more) == Measured(stream[..n]) + SizeOf(stream[n]) by { MeasuredLast(stream, n); }
    assert more[..n + 1] == more;
    assert forall i :: 0 < i < n ==> more[i] == stream[..n][i] && more[..i + 1] == stream[..n][..i + 1];
  }

  lemma MeasuredLast<T>(stream: seq<Record<T>>, n: nat)
    requires n < |stream|
    ensures Measured(stream[..n + 1]) == Measured(stream[..n]) + SizeOf(stream[n])
  {
    assert stream[..n + 1][..n] == stream[..n];
  }

  // The loop over a driver's cursor.
  method StreamBolt<T>(stream: seq<Record<T>>, caps: Caps) returns (r: Result<T>)
    ensures IsAnswer(stream, caps, r)
  {
    hide Measured, BytesAllowed;
    var records: seq<Record<T>> := [];
    var truncated, reason, byteCount := false, NotTruncated, 0;
    EmptyAllowed(stream[..0], caps);
    for i := 0 to |stream|
      invariant records == stream[..i]
      invariant Allowed(records, caps)
      invariant !truncated && reason == NotTruncated
      invariant byteCount == if caps.maxBytes <= 0 then 0 else Measured(records)
    {
      var record := stream[i];
      TakeOneMore(stream, i, caps);
      if caps.maxBytes > 0 && |records| > 0 {
        match record.size
        case None =>
        case Some(bytes) =>
          if byteCount + bytes > caps.maxBytes {
            truncated := true;
            reason := ByteCap;
            break;
          }
          byteCount := byteCount + bytes;
      } else if caps.maxBytes > 0 {
        if record.size.Some? {
          byteCount := byteCount + record.size.value;
        }
      }
      if caps.maxRows > 0 && |records| >= caps.maxRows {
        truncated := true;
        reason := RowCap;
        break;
      }
      records := records + [record];
      assert records == stream[..i + 1];
    }
    r := Result(records, truncated, reason, |records|, byteCount);
  }

  lemma EmptyAllowed<T>(rows: seq<Record<T>>, caps: Caps)
    requires rows == []
    ensures Allowed(rows, caps) && Measured(rows) == 0
  {
  }

  // The loop over the HTTP client's iterator: the byte cap only raises a flag, and
  // the loop leaves at the next test.
  method StreamQueryAPI<T>(stream: seq<Record<T>>, caps: Caps) returns (r: Result<T>)
    ensures IsAnswer(stream, caps, r)
  {
    hide Measured, BytesAllowed;
    var records: seq<Record<T>> := [];
    var truncated, reason, byteCount := false, NotTruncated, 0;
    EmptyAllowed(stream[..0], caps);
    for i := 0 to |stream|
      invariant records == stream[..i]
      invariant Allowed(records, caps)
      invariant !truncated && reason == NotTruncated
      invariant byteCount == if caps.maxBytes <= 0 then 0 else Measured(records)
    {
      var record := stream[i];
      TakeOneMore(stream, i, caps);
      if caps.maxBytes > 0 && |records| > 0 {
        match record.size
        case None =>
        case Some(bytes) =>
          if byteCount + bytes > caps.maxBytes {
            truncated := true;
            reason := ByteCap;
          } else {
            byteCount := byteCount + bytes;
          }
      } else if caps.maxBytes > 0 {
        if record.size.Some? {
          byteCount := byteCount + record.size.value;
        }
      }
      if truncated {
        break;
      }
      if caps.maxRows > 0 && |records| >= caps.maxRows {
        truncated := true;
        reason := RowCap;
        break;
      }
      records := records + [record];
      assert records == stream[..i + 1];
    }
    r := Result(records, truncated, reason, |records|, byteCount);
  }

  // ---------------------------------------------------------------- what an answer promises

  lemma AllowedPrefix<T>(rows: seq<Record<T>>, k: nat, caps: Caps)
    requires k <= |rows| && Allowed(rows, caps)
    ensures Allowed(rows[..k], caps)
  {
    assert forall i :: 0 < i < k ==> rows[..k][i] == rows[i] && rows[..k][..i + 1] == rows[..i + 1];
  }

  // No allowed prefix is longer than the answer.
  lemma AnswerIsLongest<T>(stream: seq<Record<T>>, caps: Caps, r: Result<T>, k: nat)
    requires IsAnswer(stream, caps, r) && k <= |stream| && Allowed(stream[..k], caps)
    ensures k <= |r.records|
  {
    hide Allowed, BytesAllowed;
    if k > |r.records| {
      assert stream[..k][..|r.records| + 1] == stream[..|r.records| + 1];
      AllowedPrefix(stream[..k], |r.records| + 1, caps);
    }
  }

  // A stream has one answer, so the two transports cannot differ.
  lemma AnswerIsUnique<T>(stream: seq<Record<T>>, caps: Caps, r: Result<T>, s: Result<T>)
    requires IsAnswer(stream, caps, r) && IsAnswer(stream, caps, s)
    ensures r == s
  {
    AnswerIsLongest(stream, caps, r, |s.records|);
    AnswerIsLongest(stream, caps, s, |r.records|);
  }

  // Raising or lifting a cap never loses a row.
  lemma LooserCapsKeepRows<T>(stream: seq<Record<T>>, caps: Caps, looser: Caps, r: Result<T>, s: Result<T>)
    requires IsAnswer(stream, caps, r) && IsAnswer(stream, looser, s)
    requires looser.maxRows <= 0 || 0 < caps.maxRows <= looser.maxRows
    requires looser.maxBytes <= 0 || 0 < caps.maxBytes <= looser.maxBytes
    ensures r.records <= s.records
  {
    AnswerIsLongest(stream, looser, s, |r.records|);
  }

  // The rows returned measure at most the byte cap, or as much as the first row.
  lemma {:induction false} AllowedBytes<T>(rows: seq<Record<T>>, caps: Caps)
    requires Allowed(rows, caps) && caps.maxBytes > 0 && rows != []
    ensures Measured(rows) <= caps.maxBytes || Measured(rows) == SizeOf(rows[0])
  {
    if |rows| == 1 {
      assert rows[..0] == [];
    } else {
      var last := |rows| - 1;
      AllowedPrefix(rows, last, caps);
      AllowedBytes(rows[..last], caps);
      assert rows[..last + 1] == rows;
    }
  }

  // A stream with a row never yields an empty answer.
  lemma FirstRowAlwaysReturned<T>(stream: seq<Record<T>>, caps: Caps, r: Result<T>)
    requires IsAnswer(stream, caps, r) && stream != []
    ensures r.records != []
  {
    assert stream[..0 + 1] == stream[..1];
  }

  // The row cap on, more rows than it allows, and every row up to the one too many
  // within the byte cap.
  ghost predicate RowsRunOutFirst<T>(stream: seq<Record<T>>, caps: Caps) {
    0 < caps.maxRows < |stream| && BytesAllowed(stream[..caps.maxRows + 1], caps)
  }

  lemma BytesAllowedPrefix<T>(rows: seq<Record<T>>, k: nat, caps: Caps)
    requires k <= |rows| && BytesAllowed(rows, caps)
    ensures BytesAllowed(rows[..k], caps)
  {
    assert forall i :: 0 < i < k ==> rows[..k][i] == rows[i] && rows[..k][..i + 1] == rows[..i + 1];
  }

  // Which cap stops a stream is settled by the stream and the caps.
  lemma RowCapFiresIff<T>(stream: seq<Record<T>>, caps: Caps, r: Result<T>)
    requires IsAnswer(stream, caps, r)
    ensures r.reason == RowCap <==> RowsRunOutFirst(stream, caps)
    ensures r.reason == RowCap ==> |r.records| == caps.maxRows
  {
    hide BytesAllowed;
    if RowsRunOutFirst(stream, caps) {
      var m := caps.maxRows;
      BytesAllowedPrefix(stream[..m + 1], m, caps);
      assert stream[..m + 1][..m] == stream[..m];
      AnswerIsLongest(stream, caps, r, m);
    }
  }

  // The reported byte count is that of the returned rows unless the row cap is the
  // one to stop the stream and the row it leaves out was measured.
  lemma ByteCountIsReturnedIff<T>(stream: seq<Record<T>>, caps: Caps, r: Result<T>)
    requires IsAnswer(stream, caps, r) && caps.maxBytes > 0
    ensures r.byteCount == Measured(r.records) <==>
      !(RowsRunOutFirst(stream, caps) && SizeOf(stream[caps.maxRows]) > 0)
  {
    hide BytesAllowed, RowsRunOutFirst;
    RowCapFiresIff(stream, caps, r);
  }

  lemma ByteCountExample()
    ensures var stream := [Record("a", Some(7)), Record("b", Some(7))];
      IsAnswer(stream, Caps(1, 1000), Result(stream[..1], true, RowCap, 1, 14)) && Measured(stream[..1]) == 7
  {
    var stream := [Record("a", Some(7)), Record("b", Some(7))];
    assert stream[..1][..0] == [] && stream[..2][..1] == stream[..1] && stream[..2][..2] == stream[..2];
  }
}
