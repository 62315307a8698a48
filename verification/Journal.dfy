/**
 The satellite's durable command journal: full records, and ranges of request ids whose
 records have been compacted away. The reference is a plain map with a plain set of
 retired keys; the range tables refine it.
 */
module Journal {
  import opened Bytes
  import opened OutboxModel
  import opened IntervalIndex

  datatype RecordState = RECORD_EXECUTED | DISPATCHED | COMMAND_REJECTED | EXECUTION_FAILED | RECORD_ACCEPTED

  datatype Record = Record(opcode: nat, digest: seq<byte>, state: RecordState, result: seq<byte>)

  datatype Lookup = NEW | DUPLICATE(result: seq<byte>) | CONFLICT | RETIRED

  /** The reference journal. */
  datatype Ledger = Ledger(full: map<Key, Record>, gone: iset<Key>)

  ghost predicate Seen(l: Ledger, k: Key) {
    k in l.full || k in l.gone
  }

  ghost function Find(l: Ledger, k: Key, digest: seq<byte>): Lookup {
    if k in l.full then (if l.full[k].digest != digest then CONFLICT else DUPLICATE(l.full[k].result))
    else if k in l.gone then RETIRED
    else NEW
  }

  /** The journal tables. */
  datatype Tables = Tables(commands: map<Key, Record>, retired: map<nat, Ranges>)

  function RangesOf(t: Tables, ground: nat): Ranges {
    if ground in t.retired then t.retired[ground] else []
  }

  /** Disjoint, maximal rows for every ground station. */
  ghost predicate TablesInv(t: Tables) {
    forall g :: g in t.retired ==> WellFormed(t.retired[g])
  }

  /** What the tables mean. */
  ghost function Meaning(t: Tables): Ledger {
    Ledger(t.commands, iset k: Key | Covers(RangesOf(t, k.ground), k.request))
  }

  /** Compaction keeps terminal records only; dispatched work must be over everywhere. */
  predicate Compactable(r: Record, relatedTerminal: bool) {
    || r.state == RECORD_EXECUTED || r.state == COMMAND_REJECTED || r.state == EXECUTION_FAILED
    || (r.state == DISPATCHED && relatedTerminal)
  }

  datatype JournalError = NotInJournal | NotTerminalRecord | RelatedWorkRunning | DuplicateKey

  /** One record becomes one retired id. */
  ghost function Compacted(l: Ledger, k: Key): Ledger {
    Ledger(map j | j in l.full && j != k :: l.full[j], l.gone + iset{k})
  }

  /** Two tables with the same meaning have the same rows: the order of compaction leaves no trace. */
  lemma RowsAreDetermined(t: Tables, u: Tables, g: nat)
    requires TablesInv(t) && TablesInv(u) && Meaning(t) == Meaning(u)
    ensures RangesOf(t, g) == RangesOf(u, g)
  {
    forall x: nat ensures Covers(RangesOf(t, g), x) <==> Covers(RangesOf(u, g), x) {
      assert Key(g, x) in Meaning(t).gone <==> Key(g, x) in Meaning(u).gone;
    }
    hide Covers;
    CanonicalForm(RangesOf(t, g), RangesOf(u, g));
  }

  class SatelliteJournal {
    var commands: map<Key, Record>
    var retired: map<nat, Ranges>

    function Value(): Tables
      reads this
    {
      Tables(commands, retired)
    }

    ghost predicate Valid()
      reads this
    {
      TablesInv(Value())
    }

    constructor ()
      ensures Valid() && Meaning(Value()) == Ledger(map[], iset{})
    {
      commands, retired := map[], map[];
    }

    /** Full record first, then the retired ranges. */
    method LookupRequest(k: Key, digest: seq<byte>) returns (r: Lookup)
      requires Valid()
      ensures r == Find(Meaning(Value()), k, digest)
    {
      if k in commands {
        return if commands[k].digest != digest then CONFLICT else DUPLICATE(commands[k].result);
      }
      var covered := false;
      if k.ground in retired {
        covered := InSomeRow(retired[k.ground], k.request);
      }
      r := if covered then RETIRED else NEW;
    }

    method RecordCommand(k: Key, record: Record) returns (r: Result<(), JournalError>)
      modifies `commands
      ensures old(k in commands) ==> r == Err(DuplicateKey) && Value() == old(Value())
      ensures old(k !in commands) ==> r.Ok? && Meaning(Value()) == Ledger(old(commands)[k := record], old(Meaning(Value())).gone)
      ensures Value() == old(Value()).(commands := commands)
    {
      if k in commands {
        return Err(DuplicateKey);
      }
      commands := commands[k := record];
      r := Ok(());
    }

    /** Deletes a terminal record and merges its id into the retired ranges it touches. */
    method CompactRequest(k: Key, relatedTerminal: bool) returns (r: Result<(), JournalError>)
      requires Valid()
      modifies this
      ensures Valid()
      ensures r.Ok? <==> old(k in commands && Compactable(commands[k], relatedTerminal))
      ensures r.Ok? ==> Meaning(Value()) == Compacted(old(Meaning(Value())), k)
      ensures r.Err? ==> Value() == old(Value())
      ensures r.Err? ==> (r.error == NotInJournal <==> old(k !in commands))
    {
      if k !in commands {
        return Err(NotInJournal);
      }
      var record := commands[k];
      if record.state == RECORD_ACCEPTED {
        return Err(NotTerminalRecord);
      }
      if record.state == DISPATCHED && !relatedTerminal {
        return Err(RelatedWorkRunning);
      }
      ghost var before := Value();
      var rows := if k.ground in retired then retired[k.ground] else [];
      var lo, hi := FindTouching(rows, k.request, k.request + 1);
      var merged, added := Absorb(rows, k.request, k.request + 1, lo, hi);
      commands := map j | j in commands && j != k :: commands[j];
      retired := retired[k.ground := merged];
      MeaningAfterCompaction(before, Value(), k, merged);
      r := Ok(());
    }
  }

  method InSomeRow(rows: Ranges, x: nat) returns (found: bool)
    ensures found <==> Covers(rows, x)
  {
    for i := 0 to |rows|
      invariant forall j :: 0 <= j < i ==> !(rows[j].start <= x < rows[j].end)
    {
      if rows[i].start <= x < rows[i].end {
        return true;
      }
    }
    found := false;
  }

  lemma MeaningAfterCompaction(t: Tables, u: Tables, k: Key, merged: Ranges)
    requires TablesInv(t) && WellFormed(merged)
    requires forall x: nat :: Covers(merged, x) <==> Covers(RangesOf(t, k.ground), x) || k.request <= x < k.request + 1
    requires u.retired == t.retired[k.ground := merged] && u.commands == map j | j in t.commands && j != k :: t.commands[j]
    ensures TablesInv(u) && Meaning(u) == Compacted(Meaning(t), k)
  {
    hide Covers, WellFormed;
    forall j: Key ensures j in Meaning(u).gone <==> j in Compacted(Meaning(t), k).gone {
      if j.ground == k.ground {
        assert RangesOf(u, j.ground) == merged;
        assert Covers(merged, j.request) <==> Covers(RangesOf(t, j.ground), j.request) || j.request == k.request;
      }
    }
  }
}
