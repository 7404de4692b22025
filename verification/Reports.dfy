/** One cached divergence report: how a claim and a compute overwrite its row. */
module Reports {
  import opened Options

  datatype ReportStatus = Pending | Running | Ready | Failed

  /** A stored payload remembers the run that made it, the digest that run started under, and the versions it read. */
  datatype Payload = Payload(run: nat, expected: nat, read: seq<nat>)

  datatype Report = Report(status: ReportStatus, fingerprint: nat, payload: Option<Payload>, failed: bool)

  function NewReport(fingerprint: nat): Report {
    Report(Pending, fingerprint, None, false)
  }

  /** A claim keeps a ready, freshly running or pending row of the same digest and resets anything else. */
  predicate Keeps(row: Report, fingerprint: nat, beating: bool) {
    row.fingerprint == fingerprint && (row.status == Ready || (row.status == Running && beating) || row.status == Pending)
  }

  function Claimed(row: Report, fingerprint: nat, beating: bool): Report {
    if Keeps(row, fingerprint, beating) then row else NewReport(fingerprint)
  }

  /** Progress is unguarded: it makes the row running whatever it was. */
  function Progressed(row: Report): Report {
    row.(status := Running)
  }

  function MadeReady(row: Report, payload: Payload): Report {
    row.(status := Ready, payload := Some(payload), failed := false)
  }

  function MadeFailed(row: Report): Report {
    row.(status := Failed, failed := true)
  }

  class ReportRow {
    var row: Report

    constructor (fingerprint: nat)
      ensures row == NewReport(fingerprint)
    {
      row := Report(Pending, fingerprint, None, false);
    }

    /** `beating` tells whether a running row reported progress recently. */
    method Claim(fingerprint: nat, beating: bool) returns (schedule: bool)
      modifies this
      ensures row == Claimed(old(row), fingerprint, beating)
      ensures !schedule <==> Keeps(old(row), fingerprint, beating) && old(row).status != Pending
    {
      if row.status == Ready && row.fingerprint == fingerprint {
        return false;
      }
      if row.status == Running && beating && row.fingerprint == fingerprint {
        return false;
      }
      if row.status == Pending && row.fingerprint == fingerprint {
        return true;
      }
      row := row.(status := Pending, fingerprint := fingerprint);
      row := row.(payload := None, failed := false);
      schedule := true;
    }

    method MarkProgress()
      modifies this
      ensures row == Progressed(old(row))
    {
      row := row.(status := Running);
    }

    /** Lock, compare the digest, and only then store the payload. */
    method StoreIfSame(payload: Payload) returns (stored: bool)
      modifies this
      ensures stored <==> old(row).fingerprint == payload.expected
      ensures row == if stored then MadeReady(old(row), payload) else old(row)
    {
      if row.fingerprint != payload.expected {
        return false;
      }
      row := row.(status := Ready, payload := Some(payload), failed := false);
      stored := true;
    }

    method FailIfSame(expected: nat) returns (stored: bool)
      modifies this
      ensures stored <==> old(row).fingerprint == expected
      ensures row == if stored then MadeFailed(old(row)) else old(row)
    {
      if row.fingerprint != expected {
        return false;
      }
      row := row.(status := Failed, failed := true);
      stored := true;
    }
  }
}
