/** scripts/update_yfinance_data.py: download each ticker of a fixed table and write it to
    a CSV file named after the ticker, then write a summary record. Downloads are given as
    a function from ticker to outcome, the output directory as a map from file names to
    contents, and whether a file can be written as a predicate on its name. */
module Ingestion {
  import opened Wrappers
  import opened Frames
  import opened Text

  /** `TICKERS`: symbol and human-readable name, in table order. */
  const Tickers: seq<(string, string)> := [
    ("USO", "United States Oil Fund"),
    ("UNG", "United States Natural Gas Fund"),
    ("URA", "Global X Uranium ETF"),
    ("COAL", "VanEck Coal ETF"),
    ("XLE", "Energy Select Sector SPDR Fund"),
    ("XOP", "SPDR S&P Oil & Gas Exploration & Production ETF"),
    ("VDE", "Vanguard Energy ETF"),
    ("IYE", "iShares U.S. Energy ETF"),
    ("XOM", "Exxon Mobil Corporation"),
    ("CVX", "Chevron Corporation"),
    ("COP", "ConocoPhillips"),
    ("SLB", "Schlumberger Limited"),
    ("HAL", "Halliburton Company"),
    ("BKR", "Baker Hughes Company"),
    ("OXY", "Occidental Petroleum Corporation"),
    ("CL=F", "WTI Crude Oil Futures"),
    ("NG=F", "Natural Gas Futures"),
    ("BZ=F", "Brent Crude Oil Futures"),
    ("RB=F", "Gasoline RBOB Futures"),
    ("HO=F", "Heating Oil Futures")]

  const CsvExtension := ".csv"
  const SummaryFileName := "update_summary.json"

  /** The file name of a ticker's data: every `=` becomes `_` and `.csv` is appended. */
  function CsvFileName(ticker: string): (f: string)
    ensures |f| == |ticker| + |CsvExtension| && f[|ticker|..] == CsvExtension
    ensures forall k :: 0 <= k < |ticker| ==> f[k] == if ticker[k] == '=' then '_' else ticker[k]
    ensures '=' !in f
  {
    ReplaceChar(ticker, '=', '_') + CsvExtension
  }

  /** Among tickers without `_`, distinct tickers get distinct file names. */
  lemma CsvFileNameInjective(a: string, b: string)
    requires '_' !in a && '_' !in b
    requires CsvFileName(a) == CsvFileName(b)
    ensures a == b
  {
    var f := CsvFileName(a);
    assert |a| == |b|;
    forall k | 0 <= k < |a|
      ensures a[k] == b[k]
    {
      assert a[k] == '=' <==> f[k] == '_';
      assert b[k] == '=' <==> f[k] == '_';
    }
  }

  /** A ticker data file is never the summary file. */
  lemma CsvFileIsNotSummary(ticker: string)
    ensures CsvFileName(ticker) != SummaryFileName
  {
    var f := CsvFileName(ticker);
    assert f[|f| - 1] == 'v';
  }

  /** No symbol of the table contains `_`, and the symbols are pairwise distinct. */
  lemma TickerTableWellFormed()
    ensures forall i :: 0 <= i < |Tickers| ==> '_' !in Tickers[i].0
    ensures forall i, j :: 0 <= i < j < |Tickers| ==> Tickers[i].0 != Tickers[j].0
  {
  }

  /** The twenty file names are pairwise distinct. */
  lemma TickerFileNamesDistinct()
    ensures forall i, j :: 0 <= i < j < |Tickers| ==> CsvFileName(Tickers[i].0) != CsvFileName(Tickers[j].0)
  {
    TickerTableWellFormed();
    forall i, j | 0 <= i < j < |Tickers|
      ensures CsvFileName(Tickers[i].0) != CsvFileName(Tickers[j].0)
    {
      if CsvFileName(Tickers[i].0) == CsvFileName(Tickers[j].0) {
        CsvFileNameInjective(Tickers[i].0, Tickers[j].0);
      }
    }
  }

  /** What `stock.history` does: return a frame or raise. */
  datatype Fetch = History(data: Frame) | Raised(message: string)

  const TickerColumn := "Ticker"
  const NameColumn := "Name"

  /** A column list after assigning column `c`: unchanged when `c` is there, else `c` last. */
  function AppendIfNew(cs: seq<string>, c: string): seq<string>
  {
    if c in cs then cs else cs + [c]
  }

  /** `download_ticker_data`: None when the download raises or comes back empty, otherwise
      the history with the ticker and the name in every row, those two columns appended
      when new, and nothing else changed. */
  function DownloadTickerData(ticker: string, name: string, fetched: Fetch): (r: Option<Frame>)
    ensures r.None? <==> fetched.Raised? || IsEmpty(fetched.data)
    ensures r.Some? ==>
              && !IsEmpty(r.value)
              && |r.value.rows| == |fetched.data.rows|
              && TickerColumn in r.value.columns && NameColumn in r.value.columns
              && r.value.columns == AppendIfNew(AppendIfNew(fetched.data.columns, TickerColumn), NameColumn)
              && (forall i :: 0 <= i < |r.value.rows| ==>
                    CellOf(r.value.rows[i], TickerColumn) == Text(ticker) && CellOf(r.value.rows[i], NameColumn) == Text(name))
              && (forall c :: c != TickerColumn && c != NameColumn ==> Column(r.value, c) == Column(fetched.data, c))
              && (WellFormed(fetched.data) ==> WellFormed(r.value))
  {
    if fetched.Raised? || IsEmpty(fetched.data) then None
    else
      var withTicker := SetColumn(fetched.data, TickerColumn, Text(ticker));
      var withName := SetColumn(withTicker, NameColumn, Text(name));
      assert forall i :: 0 <= i < |withName.rows| ==> CellOf(withName.rows[i], TickerColumn) == Column(withTicker, TickerColumn)[i];
      Some(withName)
  }

  datatype UpdateSummary = UpdateSummary(lastUpdated: string, totalTickers: nat, successfulDownloads: nat, failedDownloads: int)

  datatype FileContent = Csv(data: Frame) | Summary(summary: UpdateSummary)

  type Directory = map<string, FileContent>

  /** `save_data_to_csv`: no data, or empty data, writes nothing and returns false; a write
      that raises also returns false and leaves the directory as it was. */
  function SaveDataToCsv(data: Option<Frame>, ticker: string, dir: Directory, writable: string -> bool): (r: (bool, Directory))
    ensures (data.None? || IsEmpty(data.value)) ==> r == (false, dir)
    ensures r.0 <==> data.Some? && !IsEmpty(data.value) && writable(CsvFileName(ticker))
    ensures r.0 ==> r.1 == dir[CsvFileName(ticker) := Csv(data.value)]
    ensures !r.0 ==> r.1 == dir
  {
    if data.None? || IsEmpty(data.value) then (false, dir)
    else
      var filename := CsvFileName(ticker);
      if writable(filename) then (true, dir[filename := Csv(data.value)]) else (false, dir)
  }

  /** Whether one ticker's download ends in a saved file: exactly when the download
      returned rows and columns and the ticker's file can be written. */
  predicate Saves(t: (string, string), fetch: string -> Fetch, writable: string -> bool)
    ensures Saves(t, fetch, writable) <==>
              fetch(t.0).History? && !IsEmpty(fetch(t.0).data) && writable(CsvFileName(t.0))
  {
    DownloadTickerData(t.0, t.1, fetch(t.0)).Some? && writable(CsvFileName(t.0))
  }

  /** The number of tickers whose download is saved, at most one per ticker. */
  function CountSaved(tickers: seq<(string, string)>, fetch: string -> Fetch, writable: string -> bool): (n: nat)
    ensures n <= |tickers|
  {
    if tickers == [] then 0
    else
      var init := tickers[..|tickers| - 1];
      CountSaved(init, fetch, writable) + (if Saves(tickers[|tickers| - 1], fetch, writable) then 1 else 0)
  }

  /** The directory after processing the tickers in order, each exactly once. No file is
      removed; which files change is stated by the lemmas below. */
  function Updated(dir: Directory, tickers: seq<(string, string)>, fetch: string -> Fetch, writable: string -> bool): (out: Directory)
    ensures dir.Keys <= out.Keys
  {
    if tickers == [] then dir
    else
      var t := tickers[|tickers| - 1];
      SaveDataToCsv(DownloadTickerData(t.0, t.1, fetch(t.0)), t.0, Updated(dir, tickers[..|tickers| - 1], fetch, writable), writable).1
  }

  /** A file no ticker is named after is left as it was. */
  lemma {:induction false} UpdatedLeavesOtherFiles(dir: Directory, tickers: seq<(string, string)>,
                                                   fetch: string -> Fetch, writable: string -> bool, f: string)
    requires forall k :: 0 <= k < |tickers| ==> CsvFileName(tickers[k].0) != f
    ensures var out := Updated(dir, tickers, fetch, writable);
            (f in out <==> f in dir) && (f in dir ==> out[f] == dir[f])
  {
    if tickers != [] {
      UpdatedLeavesOtherFiles(dir, tickers[..|tickers| - 1], fetch, writable, f);
    }
  }

  predicate DistinctFileNames(tickers: seq<(string, string)>)
  {
    forall i, j :: 0 <= i < j < |tickers| ==> CsvFileName(tickers[i].0) != CsvFileName(tickers[j].0)
  }

  /** With distinct file names, a saved ticker's file holds its own downloaded data, and an
      unsaved ticker's file is as it was before. */
  lemma {:induction false} UpdatedTickerFile(dir: Directory, tickers: seq<(string, string)>,
                                             fetch: string -> Fetch, writable: string -> bool, k: nat)
    requires DistinctFileNames(tickers) && k < |tickers|
    ensures var t := tickers[k]; var f := CsvFileName(t.0); var out := Updated(dir, tickers, fetch, writable);
            && (Saves(t, fetch, writable) ==> f in out && out[f] == Csv(DownloadTickerData(t.0, t.1, fetch(t.0)).value))
            && (!Saves(t, fetch, writable) ==> (f in out <==> f in dir) && (f in dir ==> out[f] == dir[f]))
  {
    var init := tickers[..|tickers| - 1];
    var f := CsvFileName(tickers[k].0);
    if k == |tickers| - 1 {
      UpdatedLeavesOtherFiles(dir, init, fetch, writable, f);
    } else {
      assert DistinctFileNames(init);
      UpdatedTickerFile(dir, init, fetch, writable, k);
      assert CsvFileName(tickers[|tickers| - 1].0) != f;
    }
  }

  /** The loop of `main`: each ticker in order, counting the saves that return true. */
  method SaveAll(tickers: seq<(string, string)>, fetch: string -> Fetch, writable: string -> bool, dir: Directory)
    returns (successCount: nat, files: Directory)
    ensures successCount == CountSaved(tickers, fetch, writable)
    ensures files == Updated(dir, tickers, fetch, writable)
  {
    successCount := 0;
    files := dir;
    var i := 0;
    while i < |tickers|
      invariant 0 <= i <= |tickers|
      invariant successCount == CountSaved(tickers[..i], fetch, writable)
      invariant files == Updated(dir, tickers[..i], fetch, writable)
    {
      assert tickers[..i + 1][..i] == tickers[..i];
      var ticker, name := tickers[i].0, tickers[i].1;
      var data := DownloadTickerData(ticker, name, fetch(ticker));
      var saved := SaveDataToCsv(data, ticker, files, writable);
      files := saved.1;
      if saved.0 {
        successCount := successCount + 1;
      }
      i := i + 1;
    }
    assert tickers[..i] == tickers;
  }

  /** `main`: every ticker in table order, then the summary record. The summary write can
      raise; the data files are written by then. */
  method UpdateTickerData(now: string, fetch: string -> Fetch, writable: string -> bool, dir: Directory)
    returns (summary: UpdateSummary, summaryWritten: bool, files: Directory)
    ensures summary.lastUpdated == now && summary.totalTickers == |Tickers|
    ensures summary.successfulDownloads == CountSaved(Tickers, fetch, writable)
    ensures summary.successfulDownloads <= summary.totalTickers
    ensures summary.successfulDownloads + summary.failedDownloads == summary.totalTickers
    ensures summaryWritten == writable(SummaryFileName)
    ensures files == if summaryWritten then Updated(dir, Tickers, fetch, writable)[SummaryFileName := Summary(summary)]
                     else Updated(dir, Tickers, fetch, writable)
  {
    var successCount;
    successCount, files := SaveAll(Tickers, fetch, writable, dir);
    var total := |Tickers|;
    summary := UpdateSummary(now, total, successCount, total - successCount);
    summaryWritten := writable(SummaryFileName);
    if summaryWritten {
      files := files[SummaryFileName := Summary(summary)];
    }
  }

  /** Over the fixed table: each saved ticker's file holds its data, every other ticker's
      file is untouched, and the summary never overwrites a data file. */
  lemma UpdateOutcome(dir: Directory, fetch: string -> Fetch, writable: string -> bool, k: nat)
    requires k < |Tickers|
    ensures var t := Tickers[k]; var f := CsvFileName(t.0); var out := Updated(dir, Tickers, fetch, writable);
            && f != SummaryFileName
            && (Saves(t, fetch, writable) ==> f in out && out[f] == Csv(DownloadTickerData(t.0, t.1, fetch(t.0)).value))
            && (!Saves(t, fetch, writable) ==> (f in out <==> f in dir) && (f in dir ==> out[f] == dir[f]))
  {
    TickerFileNamesDistinct();
    UpdatedTickerFile(dir, Tickers, fetch, writable, k);
    CsvFileIsNotSummary(Tickers[k].0);
  }
}
