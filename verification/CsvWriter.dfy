// Spilling CSV writer (src/eve/jobs/csv_io.py): rows collect in a memory buffer that is
// moved to a temporary file whenever it grows past a threshold.

module CsvWriter {
  import opened Common

  type Row = map<string, string>

  /** The csv library's rendering of one record, with its delimiter, quoting and line ending. */
  type Format = seq<string> -> string

  /** The fields of the header in order; extra keys are ignored and missing ones left empty. */
  function Fields(header: seq<string>, row: Row): (r: seq<string>)
    ensures |r| == |header|
    ensures forall i :: 0 <= i < |header| ==> (header[i] in row ==> r[i] == row[header[i]]) && (header[i] !in row ==> r[i] == "")
  {
    seq(|header|, i requires 0 <= i < |header| => if header[i] in row then row[header[i]] else "")
  }

  function Rendered(format: Format, header: seq<string>, rows: seq<Row>): string {
    if rows == [] then ""
    else
      var n := |rows| - 1;
      Rendered(format, header, rows[..n]) + format(Fields(header, rows[n]))
  }

  /** The whole file: the header line, then every row. */
  function File(format: Format, header: seq<string>, rows: seq<Row>): string {
    format(header) + Rendered(format, header, rows)
  }

  lemma Associative(x: string, y: string, z: string)
    ensures (x + y) + z == x + (y + z)
  {
  }

  lemma RenderedGrows(format: Format, header: seq<string>, rows: seq<Row>, row: Row)
    ensures File(format, header, rows + [row]) == File(format, header, rows) + format(Fields(header, row))
  {
    assert (rows + [row])[..|rows|] == rows;
    Associative(format(header), Rendered(format, header, rows), format(Fields(header, row)));
  }

  class ObjectStore {
    var objects: map<string, string>

    constructor ()
      ensures objects == map[]
    {
      objects := map[];
    }

    /** Stores `content` under `key`, or, when the backend fails, nothing at all. */
    method Put(key: string, content: string, works: bool) returns (ok: bool)
      modifies this
      ensures ok == works
      ensures objects == if ok then old(objects)[key := content] else old(objects)
    {
      if works {
        objects := objects[key := content];
      }
      return works;
    }
  }

  class Writer {
    const store: ObjectStore
    const key: string
    const header: seq<string>
    const format: Format
    const spillAt: int
    var buf: string
    var sink: Option<string>
    var rows: nat
    var open: bool
    ghost var written: seq<Row>

    /** Text accepted so far, on disk and in memory. */
    ghost function Text(): string
      reads this
    {
      (if sink.Some? then sink.value else "") + buf
    }

    /** Nothing accepted is lost, and once a row is written the buffer is below the threshold. */
    ghost predicate Valid()
      reads this
    {
      Text() == File(format, header, written) &&
      rows == |written| &&
      (rows > 0 && spillAt > 0 ==> |buf| < spillAt) &&
      (rows == 0 ==> buf == format(header) && sink.None?)
    }

    /** The header is buffered without looking at the threshold. */
    constructor (store: ObjectStore, key: string, header: seq<string>, format: Format, spillAt: int)
      ensures Valid() && open && written == [] && sink.None?
      ensures this.store == store && this.key == key && this.header == header
      ensures this.format == format && this.spillAt == spillAt
    {
      this.store := store;
      this.key := key;
      this.header := header;
      this.format := format;
      this.spillAt := spillAt;
      buf := format(header);
      sink := None;
      rows := 0;
      open := true;
      written := [];
    }

    /** Moves what is buffered to the temporary file; empty text opens no file. */
    method Spill()
      modifies this`buf, this`sink
      ensures Text() == old(Text()) && buf == ""
      ensures sink.Some? <==> old(sink.Some? || buf != "")
    {
      if buf == "" {
        return;
      }
      sink := Some((if sink.Some? then sink.value else "") + buf);
      buf := "";
    }

    method Write(row: Row)
      requires Valid() && open
      modifies this
      ensures Valid() && open
      ensures written == old(written) + [row] && rows == old(rows) + 1
      ensures spillAt > 0 ==> |buf| < spillAt
      ensures old(sink.Some?) ==> sink.Some?
    {
      hide Fields, Rendered, File;
      var line := format(Fields(header, row));
      RenderedGrows(format, header, written, row);
      Associative(if sink.Some? then sink.value else "", buf, line);
      buf := buf + line;
      rows := rows + 1;
      written := written + [row];
      if |buf| >= spillAt {
        Spill();
      }
    }

    /** Stores the file under the writer's key. The temporary file is discarded whether or not
        the store accepts it. */
    method Close(works: bool) returns (ok: bool)
      requires Valid() && open
      modifies this`buf, this`sink, this`open, store
      ensures ok == works && open == !ok && sink.None?
      ensures store.objects == if ok then old(store.objects)[key := File(format, header, written)] else old(store.objects)
      ensures !ok ==> Text() == if old(sink.Some?) then "" else old(Text())
    {
      assert sink.None? ==> buf == Text();
      if sink.None? {
        ok := store.Put(key, buf, works);
      } else {
        Spill();
        assert sink.value == Text();
        ok := store.Put(key, sink.value, works);
        sink := None;
      }
      if ok {
        open := false;
      }
    }
  }

  /** A whole output file, written the way the assembly pass writes its three. */
  method WriteFile(store: ObjectStore, key: string, header: seq<string>, format: Format, spillAt: int, rows: seq<Row>)
    returns (count: nat)
    modifies store
    ensures store.objects == old(store.objects)[key := File(format, header, rows)] && count == |rows|
  {
    var w := new Writer(store, key, header, format, spillAt);
    var i := 0;
    while i < |rows|
      invariant i <= |rows| && w.Valid() && w.open && w.written == rows[..i]
      invariant store.objects == old(store.objects)
    {
      w.Write(rows[i]);
      i := i + 1;
    }
    assert rows[..i] == rows;
    var _ := w.Close(true);
    count := w.rows;
  }

  /** A header followed by `rest` and a last row: the header line comes first, the last row's
      line last, each value in the column of its name. */
  lemma FileInOrder(format: Format, header: seq<string>, rest: seq<Row>, row: Row)
    ensures File(format, header, []) == format(header)
    ensures File(format, header, rest + [row]) == File(format, header, rest) + format(Fields(header, row))
  {
    RenderedGrows(format, header, rest, row);
    assert format(header) + "" == format(header);
  }
}
