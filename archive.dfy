/** The packaged archive (a zip file) and the name index built over its entries. */
module Archive {
  import opened Outcomes

  /** What reading an entry's bytes gives: its content, or an I/O failure (a corrupt archive, a closed handle). */
  datatype EntryData = Readable(content: string) | Corrupt(reason: string)

  /** One entry of the archive. */
  datatype ZipEntry = ZipEntry(name: string, data: EntryData)

  /** The names of a sequence of entries. */
  function Names(entries: seq<ZipEntry>): set<string>
  {
    set i | 0 <= i < |entries| :: entries[i].name
  }

  /** The map obtained by putting the entries, in order, into an empty map under their names:
      every name of the archive is a key, and it maps to an entry carrying that name. */
  function Index(entries: seq<ZipEntry>): (index: map<string, ZipEntry>)
    ensures index.Keys == Names(entries)
    ensures forall n | n in index :: index[n].name == n && index[n] in entries
  {
    if |entries| == 0 then map[]
    else
      var rest, last := entries[..|entries| - 1], entries[|entries| - 1];
      assert entries == rest + [last];
      assert Names(entries) == Names(rest) + {last.name} by {
        forall n | n in Names(entries) ensures n in Names(rest) + {last.name} {
          var i :| 0 <= i < |entries| && entries[i].name == n;
          if i < |rest| { assert rest[i] == entries[i]; }
        }
        forall n | n in Names(rest) ensures n in Names(entries) {
          var i :| 0 <= i < |rest| && rest[i].name == n;
          assert entries[i] == rest[i];
        }
      }
      Index(rest)[last.name := last]
  }

  /** Last write wins: an entry that no later entry shares its name with is the one the index keeps. */
  lemma {:induction false} IndexKeepsLast(entries: seq<ZipEntry>, i: nat)
    requires i < |entries|
    requires forall j | i < j < |entries| :: entries[j].name != entries[i].name
    ensures entries[i].name in Index(entries) && Index(entries)[entries[i].name] == entries[i]
  {
    if i < |entries| - 1 {
      var rest := entries[..|entries| - 1];
      assert rest[i] == entries[i];
      forall j | i < j < |rest| ensures rest[j].name != rest[i].name {
        assert rest[j] == entries[j];
      }
      IndexKeepsLast(rest, i);
    }
  }

  /** An opened archive: its entries in the order the archive lists them. */
  datatype ZipFile = ZipFile(entries: seq<ZipEntry>) {

    /** The entry stored under a name, or null when the archive has none. */
    function GetEntry(name: string): (r: Option<ZipEntry>)
      ensures r.Some? <==> name in Names(entries)
      ensures r.Some? ==> r.value.name == name && r.value in entries
    {
      var index := Index(entries);
      if name in index then Some(index[name]) else None
    }
  }
}
