/** `DataPipeline` of src/data_processor.py: table routing, commodity processing and the
    status record of `run_pipeline`. The database is a map from table names to frames, and
    the processing, quality and save steps are given as functions that either produce their
    value or raise with a message. */
module Pipeline {
  import opened Wrappers
  import opened Frames

  const TableMapping: map<string, string> := map[
    "natural_gas" := "natural_gas_prices",
    "crude_oil" := "crude_oil_prices",
    "power" := "power_demand"]

  const DefaultTableSuffix := "_data"

  /** `table_mapping.get(commodity, f'{commodity}_data')`. */
  function TableName(commodity: string): (t: string)
    ensures commodity in TableMapping ==> t == TableMapping[commodity]
    ensures commodity !in TableMapping ==> t == commodity + DefaultTableSuffix
  {
    if commodity in TableMapping then TableMapping[commodity] else commodity + DefaultTableSuffix
  }

  /** A name built with the default suffix ends in the suffix's last letter, `a`, which none
      of the three routed names does. */
  lemma DefaultNameLastLetter(c: string)
    ensures var t := c + DefaultTableSuffix; t[|t| - 1] == 'a'
  {
  }

  /** Distinct commodities give distinct table-name strings. */
  lemma TableNameInjective(a: string, b: string)
    requires TableName(a) == TableName(b)
    ensures a == b
  {
    var t := TableName(a);
    if a !in TableMapping && b !in TableMapping {
      assert a == t[..|t| - |DefaultTableSuffix|];
      assert b == t[..|t| - |DefaultTableSuffix|];
    } else if a !in TableMapping || b !in TableMapping {
      // A mapped name never ends in "a", the last letter of "_data".
      var unmapped := if a !in TableMapping then a else b;
      DefaultNameLastLetter(unmapped);
      assert false;
    }
  }

  type Database = map<string, Frame>

  /** `load_raw_data`: the routed table, or an empty frame when it cannot be read. */
  function LoadRawData(db: Database, commodity: string): (f: Frame)
    ensures TableName(commodity) in db ==> f == db[TableName(commodity)]
    ensures TableName(commodity) !in db ==> f == EmptyFrame && IsEmpty(f)
  {
    var table := TableName(commodity);
    if table in db then db[table] else EmptyFrame
  }

  /** A step that either returns a value or raises with a message. */
  type Step<T> = Result<T, string>

  /** `process_commodity_data`. The price steps run when a `price` column exists, then the
      seasonal step when the result has a `date` column. The power/region branch is not
      modelled: it runs only once `region` is a column, so the grouping cannot raise, and
      it discards the grouping and returns the data as it stands; the commodity therefore
      has no effect here and is kept only as the source's parameter. */
  function ProcessCommodityData(data: Frame, commodity: string,
                                priceSteps: Frame -> Step<Frame>, seasonal: Frame -> Step<Frame>): (r: Step<Frame>)
    ensures IsEmpty(data) ==> r == Ok(data)
    ensures !IsEmpty(data) && "price" !in data.columns && "date" !in data.columns ==> r == Ok(data)
    ensures !IsEmpty(data) && "price" in data.columns && priceSteps(data).Err? ==> r == priceSteps(data)
    ensures !IsEmpty(data) && "price" !in data.columns && "date" in data.columns ==> r == seasonal(data)
    ensures !IsEmpty(data) && "price" in data.columns && priceSteps(data).Ok? ==>
              r == if "date" in priceSteps(data).value.columns then seasonal(priceSteps(data).value) else priceSteps(data)
  {
    if IsEmpty(data) then Ok(data)
    else
      var afterPrice := if "price" in data.columns then priceSteps(data) else Ok(data);
      if afterPrice.Err? then afterPrice
      else
        var afterDate := if "date" in afterPrice.value.columns then seasonal(afterPrice.value) else afterPrice;
        afterDate
  }

  datatype Status = Started | Completed | Failed

  /** The `pipeline_results` dictionary; a key not yet written is None. */
  datatype PipelineResult<Report> = PipelineResult(
    timestamp: string,
    commodity: string,
    status: Status,
    rawRecords: Option<nat>,
    processedRecords: Option<nat>,
    qualityReport: Option<Report>,
    error: Option<string>)

  /** The record `run_pipeline` returns for the given step outcomes. It is always finished:
      completed exactly when every step succeeds, failed with the error recorded otherwise,
      and never left as started. */
  function PipelineRun<Report>(commodity: string, now: string, connection: Step<Database>,
                               priceSteps: Frame -> Step<Frame>, seasonal: Frame -> Step<Frame>,
                               quality: Frame -> Step<Report>, save: Frame -> Outcome<string>): (r: PipelineResult<Report>)
    ensures r.timestamp == now && r.commodity == commodity
    ensures r.status != Started
    ensures r.status == Failed <==> r.error.Some?
    ensures r.status == Completed <==>
              && connection.Ok?
              && var processed := ProcessCommodityData(LoadRawData(connection.value, commodity), commodity, priceSteps, seasonal);
                 && processed.Ok? && quality(processed.value).Ok? && save(processed.value).Pass?
  {
    var start := PipelineResult(now, commodity, Started, None, None, None, None);
    if connection.Err? then start.(status := Failed, error := Some(connection.error))
    else
      var raw := LoadRawData(connection.value, commodity);
      var loaded := start.(rawRecords := Some(|raw.rows|));
      var processed := ProcessCommodityData(raw, commodity, priceSteps, seasonal);
      if processed.Err? then loaded.(status := Failed, error := Some(processed.error))
      else
        var counted := loaded.(processedRecords := Some(|processed.value.rows|));
        var report := quality(processed.value);
        if report.Err? then counted.(status := Failed, error := Some(report.error))
        else
          var checked := counted.(qualityReport := Some(report.value));
          var saved := save(processed.value);
          if saved.Fail? then checked.(status := Failed, error := Some(saved.error))
          else checked.(status := Completed)
  }

  /** A completed run reports the loaded and processed row counts and the quality report. */
  lemma CompletedRecordsCounts<Report>(commodity: string, now: string, connection: Step<Database>,
                                       priceSteps: Frame -> Step<Frame>, seasonal: Frame -> Step<Frame>,
                                       quality: Frame -> Step<Report>, save: Frame -> Outcome<string>)
    requires PipelineRun(commodity, now, connection, priceSteps, seasonal, quality, save).status == Completed
    ensures var r := PipelineRun(commodity, now, connection, priceSteps, seasonal, quality, save);
            var raw := LoadRawData(connection.value, commodity);
            var processed := ProcessCommodityData(raw, commodity, priceSteps, seasonal).value;
            && r.rawRecords == Some(|raw.rows|)
            && r.processedRecords == Some(|processed.rows|)
            && r.qualityReport == Some(quality(processed).value)
  {
  }

  /** A commodity whose table is absent loads and processes nothing, whatever the steps do. */
  lemma MissingTableProcessesNothing<Report>(commodity: string, now: string, db: Database,
                                             priceSteps: Frame -> Step<Frame>, seasonal: Frame -> Step<Frame>,
                                             quality: Frame -> Step<Report>, save: Frame -> Outcome<string>)
    requires TableName(commodity) !in db
    ensures var r := PipelineRun(commodity, now, Ok(db), priceSteps, seasonal, quality, save);
            r.rawRecords == Some(0) && r.processedRecords == Some(0)
  {
  }

  /** `run_pipeline`, filling the record as each step finishes; a raise from any step is
      caught and recorded. */
  method RunPipeline<Report>(commodity: string, now: string, connection: Step<Database>,
                             priceSteps: Frame -> Step<Frame>, seasonal: Frame -> Step<Frame>,
                             quality: Frame -> Step<Report>, save: Frame -> Outcome<string>)
    returns (r: PipelineResult<Report>)
    ensures r == PipelineRun(commodity, now, connection, priceSteps, seasonal, quality, save)
  {
    r := PipelineResult(now, commodity, Started, None, None, None, None);
    if connection.Err? {
      r := r.(status := Failed, error := Some(connection.error));
      return;
    }
    var raw := LoadRawData(connection.value, commodity);
    r := r.(rawRecords := Some(|raw.rows|));
    var processed := ProcessCommodityData(raw, commodity, priceSteps, seasonal);
    if processed.Err? {
      r := r.(status := Failed, error := Some(processed.error));
      return;
    }
    r := r.(processedRecords := Some(|processed.value.rows|));
    var report := quality(processed.value);
    if report.Err? {
      r := r.(status := Failed, error := Some(report.error));
      return;
    }
    r := r.(qualityReport := Some(report.value));
    var saved := save(processed.value);
    if saved.Fail? {
      r := r.(status := Failed, error := Some(saved.error));
      return;
    }
    r := r.(status := Completed);
  }
}
