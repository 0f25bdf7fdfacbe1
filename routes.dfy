// The two small pieces of request handling outside the normaliser: the
// status allowlist of `POST /uploads/:id/status` and the name an uploaded
// file is stored under.

module Routes {
  import opened Text
  import opened Maybe
  import opened Numbers
  import opened JsValues

  // ---------------------------------------------------------------------
  // POST /uploads/:id/status
  // ---------------------------------------------------------------------

  /** The statuses an upload may be moved to. */
  const UploadStatuses: seq<string> := ["pending", "processing", "done", "error"]

  const BadStatusMessage: string := "status inválido"

  /** The reply of the route; `dbOk` stands for the outcome of the UPDATE. */
  datatype StatusReply =
    | BadRequest(msg: string)                 // 400, `{ ok: false, msg }`
    | Updated(status: string, notes: JsValue) // 200, `{ ok: true }`, after the UPDATE
    | ServerError                             // 500, the UPDATE failed

  /** `['pending', ...].includes(status)`: only a string equal to one of the
      four passes; `includes` does not convert other values. */
  predicate AllowedStatus(status: JsValue) {
    status.Str? && status.s in UploadStatuses
  }

  /** The route body: `notes` is `req.body.notes || null`, the status is
      checked before the database is touched. */
  function UpdateStatus(status: JsValue, notes: JsValue, dbOk: bool): (r: StatusReply)
    ensures r.BadRequest? <==> !AllowedStatus(status)
    ensures r.BadRequest? ==> r.msg == BadStatusMessage
    ensures r.Updated? ==> status == Str(r.status) && r.status in UploadStatuses && dbOk
    ensures r.Updated? ==> r.notes == (if Truthy(notes) then notes else Null)
    ensures r.ServerError? ==> AllowedStatus(status) && !dbOk
  {
    if !AllowedStatus(status) then BadRequest(BadStatusMessage)
    else if !dbOk then ServerError
    else Updated(status.s, if Truthy(notes) then notes else Null)
  }

  /** The comparison is exact: a status that differs in case, or carries
      white space, is refused. */
  lemma StatusIsCaseSensitive(dbOk: bool)
    ensures UpdateStatus(Str("Done"), Null, dbOk).BadRequest?
    ensures UpdateStatus(Str(" done"), Null, dbOk).BadRequest?
    ensures UpdateStatus(Str("done"), Null, true) == Updated("done", Null)
  {
    assert "Done" != "done" && "Done" != "error" by {
      assert "Done"[0] != "done"[0];
    }
    assert " done" !in UploadStatuses by {
      assert |" done"| == 5;
      assert " done"[0] == ' ';
    }
  }

  // ---------------------------------------------------------------------
  // The stored file name
  // ---------------------------------------------------------------------

  /** The multer file name: `${Date.now()}_${originalname.replace(/\s+/g, '_')}`,
      with `now` the clock reading in milliseconds. */
  function StoredName(now: nat, original: string): (r: string)
    ensures NoSpace(r)
    ensures |r| > |NatToString(now)| && r[|NatToString(now)|] == '_'
  {
    CollapseWhitespaceNoSpace(original);
    var stamp := NatToString(now);
    assert NoSpace(stamp) by {
      forall i | 0 <= i < |stamp| ensures !IsJsSpace(stamp[i]) {
        assert IsAsciiDigit(stamp[i]);
      }
    }
    NoSpaceJoin(stamp + "_", CollapseWhitespace(original));
    stamp + "_" + CollapseWhitespace(original)
  }

  /** Joining two names without white space gives one without. */
  lemma NoSpaceJoin(a: string, b: string)
    requires NoSpace(a) && NoSpace(b)
    ensures NoSpace(a + b)
  {
    forall i | 0 <= i < |a + b| ensures !IsJsSpace((a + b)[i]) {
      if i < |a| {
        assert (a + b)[i] == a[i];
      } else {
        assert (a + b)[i] == b[i - |a|];
      }
    }
  }

  /** The run of digits at the front of a stored name. */
  function TimestampOf(name: string): (r: Option<nat>)
  {
    var n := LeadingDigits(name);
    if n == 0 || n == |name| || name[n] != '_' then None else Some(DigitsValue(name[..n]))
  }

  /** The timestamp can be read back from the stored name. */
  lemma TimestampRoundTrip(now: nat, original: string)
    ensures TimestampOf(StoredName(now, original)) == Some(now)
  {
    var stamp := NatToString(now);
    var name := StoredName(now, original);
    LeadingDigitsOfRun(stamp, name[|stamp|..]);
    assert name == stamp + name[|stamp|..];
    NatToStringRoundTrip(now);
  }
}
