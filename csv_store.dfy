/** The signal file store the router reaches through
    `DataStorage.appendRowsToCsv` and `DataStorage.loadCsvAsJson`, which
    server/DataStorage.java does not contain. It is modelled as the store
    the router's use of it describes: one CSV file per folder and day at
    `<root>/<folder>/signals_<yyyy-MM-dd>.csv`, whose header line
    `timestamp,ecg,eda` is written when the file is created and whose data
    lines are only ever appended. A file is kept here as its data lines;
    the header is implied. A store that cannot be written (`writable ==
    false`) is an I/O failure, which the store reports as null. */
module CsvStore {
  import opened Common

  const HEADER: string := "timestamp,ecg,eda"

  /** The file a folder's rows of one day go to. */
  function CsvPath(root: string, folder: string, day: string): (path: string)
    ensures |path| > 4 && path[|path| - 4..] == ".csv"
  {
    root + "/" + folder + "/signals_" + day + ".csv"
  }

  class CsvFiles {
    /** The absolute directory under which the folders live. */
    var root: string
    /** Each existing file's data lines, in the order they were appended. */
    var files: map<string, seq<string>>
    /** False while the file system refuses writes. */
    var writable: bool

    constructor (root: string)
      ensures this.root == root && files == map[] && writable
    {
      this.root := root;
      files := map[];
      writable := true;
    }

    /** The data lines a file holds: none when it does not exist yet. */
    function Lines(path: string): (lines: seq<string>)
      reads this`files
      ensures path !in files ==> lines == []
    {
      if path in files then files[path] else []
    }

    /** `appendRowsToCsv(folder, rows)`: appends the rows to today's file of
        the folder, creating it when needed, and returns its path; null, and
        nothing written, when the store cannot be written. */
    method AppendRowsToCsv(folder: string, rows: seq<string>, today: string) returns (path: Option<string>)
      modifies this`files
      ensures path.None? <==> !writable
      ensures path.None? ==> files == old(files)
      ensures path.Some? ==> && path.value == CsvPath(root, folder, today)
                             && files == old(files)[path.value := old(Lines(path.value)) + rows]
      ensures path.Some? ==> Load(path.value) == Some(old(Lines(path.value)) + rows)
    {
      if !writable {
        return None;
      }
      var p := CsvPath(root, folder, today);
      var lines := Lines(p);
      var i := 0;
      while i < |rows|
        invariant 0 <= i <= |rows| && lines == Lines(p) + rows[..i]
      {
        lines := lines + [rows[i]];
        i := i + 1;
      }
      assert rows[..i] == rows;
      files := files[p := lines];
      path := Some(p);
    }

    /** `loadCsvAsJson(path)`, with the rows handed over directly rather than
        wrapped in a JSON text: the file's data lines, or null when there is
        no file at that path. */
    function Load(path: string): (rows: Option<seq<string>>)
      reads this`files
      ensures rows.Some? <==> path in files
      ensures rows.Some? ==> rows.value == files[path]
    {
      if path in files then Some(files[path]) else None
    }
  }
}
