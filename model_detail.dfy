/** The model-detail card: which of its display states a training run is in,
    and the values the full card shows (title with elapsed time, parameter
    rows, metric names resolved through the metrics table). Everything here is
    a pure function of the model record, the job id and the lookup table. */
module ModelDetail {
  import opened Common

  /** One row of the metrics table: a metric's key and its display name. */
  datatype MetricConfig = MetricConfig(value: string, name: string)

  /** One entry of a record's `metricList`. */
  datatype Metric = Metric(name: string, score: string)

  /** A training run's snapshot as the card receives it. A status the record
      does not carry is the empty string, which equals none of the statuses
      the card tests for. Times are milliseconds since the epoch. The three
      result fields are `None` when absent (falsy); an empty list or object is
      present. */
  datatype ModelRecord = ModelRecord(
    name: string,
    modelId: string,
    blockId: string,
    jobStatus: string,
    trainStatus: string,
    trainBeginTime: int,
    trainEndTime: int,
    params: Option<JsObject>,
    featureImportance: Option<seq<JsObject>>,
    metricList: Option<seq<Metric>>)

  /** The four mutually exclusive display states of the card. */
  datatype Status = Failure | Creating | Training | Complete

  /** At least one of the result fields is present. */
  predicate HasResults(m: ModelRecord)
  {
    m.featureImportance.Some? || m.params.Some? || m.metricList.Some?
  }

  /** The `switch (true)` in `render`: the first case that holds wins. */
  function StatusOf(m: ModelRecord): (s: Status)
    ensures m.trainStatus == "FAIL" ==> s == Failure
    ensures m.trainStatus == "SUCCESS" ==> s == Complete
    ensures s == Failure ==> m.jobStatus == "FAIL" || m.trainStatus == "FAIL"
    ensures s == Creating ==> m.trainStatus == "CREATE" && m.jobStatus != "FAIL"
    ensures s == Training ==> m.trainStatus == "TRAINING" && m.jobStatus != "FAIL" && !HasResults(m)
    ensures m.trainStatus == "TRAINING" && HasResults(m) && m.jobStatus != "FAIL" ==> s == Complete
  {
    if (m.jobStatus == "FAIL" && m.trainStatus != "SUCCESS") || m.trainStatus == "FAIL" then Failure
    else if m.trainStatus == "CREATE" then Creating
    else if m.trainStatus == "TRAINING" && !HasResults(m) then Training
    else Complete
  }

  /** The training statuses the card distinguishes, as a closed enumeration. */
  datatype TrainState = TrainFail | TrainSuccess | TrainCreate | TrainTraining | TrainOther

  function TrainStateOf(s: string): TrainState
  {
    if s == "FAIL" then TrainFail
    else if s == "SUCCESS" then TrainSuccess
    else if s == "CREATE" then TrainCreate
    else if s == "TRAINING" then TrainTraining
    else TrainOther
  }

  /** An order-independent decision table: one case per training status, each
      naming the display state outright. */
  function DecisionTable(jobFailed: bool, train: TrainState, results: bool): Status
  {
    match train
    case TrainFail => Failure
    case TrainSuccess => Complete
    case TrainCreate => if jobFailed then Failure else Creating
    case TrainTraining => if jobFailed then Failure else if results then Complete else Training
    case TrainOther => if jobFailed then Failure else Complete
  }

  /** The first-match dispatch agrees with the decision table on every record. */
  lemma StatusMatchesTable(m: ModelRecord)
    ensures StatusOf(m) == DecisionTable(m.jobStatus == "FAIL", TrainStateOf(m.trainStatus), HasResults(m))
  {
  }

  /** Each display state is chosen exactly when its condition holds. */
  lemma StatusExact(m: ModelRecord)
    ensures StatusOf(m) == Failure <==>
      (m.jobStatus == "FAIL" && m.trainStatus != "SUCCESS") || m.trainStatus == "FAIL"
    ensures StatusOf(m) == Creating <==>
      m.trainStatus == "CREATE" && m.jobStatus != "FAIL"
    ensures StatusOf(m) == Training <==>
      m.trainStatus == "TRAINING" && m.jobStatus != "FAIL" && !HasResults(m)
    ensures StatusOf(m) == Complete <==>
      m.trainStatus == "SUCCESS" ||
      (m.jobStatus != "FAIL" && m.trainStatus !in {"FAIL", "CREATE", "TRAINING"}) ||
      (m.jobStatus != "FAIL" && m.trainStatus == "TRAINING" && HasResults(m))
  {
  }

  /** A failed job outranks a training run that is still being created. */
  lemma FailedJobWhileCreating(m: ModelRecord)
    requires m.jobStatus == "FAIL" && m.trainStatus == "CREATE"
    ensures StatusOf(m) == Failure
  {
  }

  /** A successful training run shows the full card even when its job failed. */
  lemma FailedJobAfterSuccess(m: ModelRecord)
    requires m.jobStatus == "FAIL" && m.trainStatus == "SUCCESS"
    ensures StatusOf(m) == Complete
  {
  }

  /** The time from `begin` to `end`, both in milliseconds, in whole seconds,
      truncated toward zero. */
  function ElapsedSeconds(begin: int, end: int): (s: int)
    ensures end >= begin ==> s * 1000 <= end - begin < (s + 1) * 1000
    ensures end < begin ==> (s - 1) * 1000 < end - begin <= s * 1000
  {
    var d := end - begin;
    if d >= 0 then d / 1000 else -((-d) / 1000)
  }

  /** A run that took 125000 ms reports 125 seconds. */
  lemma ElapsedExample(t0: int)
    ensures ElapsedSeconds(t0, t0 + 125000) == 125
  {
  }

  /** The card's title: just the name, or the name with the training time. */
  datatype Title = Plain(name: string) | Timed(name: string, seconds: int)

  /** The full card's title carries the elapsed time only for a successful run. */
  function TitleOf(m: ModelRecord): (t: Title)
    ensures t.name == m.name
    ensures t.Timed? <==> m.trainStatus == "SUCCESS"
    ensures t.Timed? ==> t.seconds == ElapsedSeconds(m.trainBeginTime, m.trainEndTime)
  {
    if m.trainStatus == "SUCCESS" then Timed(m.name, ElapsedSeconds(m.trainBeginTime, m.trainEndTime))
    else Plain(m.name)
  }

  /** The rows of the lookup table whose key equals `val`, in table order. */
  function Matching(table: seq<MetricConfig>, val: string): (r: seq<MetricConfig>)
    ensures forall c :: c in r <==> c in table && c.value == val
    ensures |r| <= |table|
  {
    if |table| == 0 then []
    else if table[0].value == val then [table[0]] + Matching(table[1..], val)
    else Matching(table[1..], val)
  }

  /** `getname`: the name of the first matching row, or the empty string. */
  function MetricName(table: seq<MetricConfig>, val: string): (r: string)
    ensures (forall i :: 0 <= i < |table| ==> table[i].value != val) ==> r == ""
  {
    var found := Matching(table, val);
    if |found| > 0 then found[0].name else ""
  }

  /** Row `k` is the first row of the table whose key is `val`. */
  predicate FirstMatch(table: seq<MetricConfig>, val: string, k: int)
  {
    0 <= k < |table| && table[k].value == val &&
    forall j :: 0 <= j < k ==> table[j].value != val
  }

  /** The first matching row decides the name, whatever rows follow it. */
  lemma {:induction false} MetricNameIsFirst(table: seq<MetricConfig>, val: string, k: int)
    requires FirstMatch(table, val, k)
    ensures MetricName(table, val) == table[k].name
  {
    if k > 0 {
      assert FirstMatch(table[1..], val, k - 1);
      MetricNameIsFirst(table[1..], val, k - 1);
      assert Matching(table, val) == Matching(table[1..], val);
    }
  }

  /** One line of the parameter list. */
  datatype ParamRow = ParamRow(name: string, value: string)

  /** One row per property of `o`, in key order, holding its name and value. */
  function Rows(o: seq<(string, string)>): (r: seq<ParamRow>)
    requires DistinctKeys(o)
    ensures |r| == |o|
    ensures forall k, v :: ParamRow(k, v) in r <==> Lookup(o, k) == Some(v)
    ensures forall i, j :: 0 <= i < j < |r| ==> r[i].name != r[j].name
  {
    if |o| == 0 then []
    else
      var rest := Rows(o[1..]);
      assert forall i :: 0 <= i < |rest| ==> rest[i].name != o[0].0 by {
        forall i | 0 <= i < |rest| ensures rest[i].name != o[0].0 {
          assert ParamRow(rest[i].name, rest[i].value) in rest;
        }
      }
      [ParamRow(o[0].0, o[0].1)] + rest
  }

  /** `paramsData`: one row per key of `params`, none when `params` is absent. */
  function ParamsData(params: Option<JsObject>): (r: seq<ParamRow>)
    ensures params.None? ==> r == []
    ensures params.Some? ==> |r| == |params.value|
    ensures params.Some? ==> forall k, v :: ParamRow(k, v) in r <==> Lookup(params.value, k) == Some(v)
  {
    match params
    case None => []
    case Some(o) => Rows(o)
  }

  /** One line of the metric list: the resolved metric name and its score. */
  datatype MetricRow = MetricRow(title: string, score: string)

  function MetricRows(table: seq<MetricConfig>, metrics: seq<Metric>): (r: seq<MetricRow>)
    ensures |r| == |metrics|
    ensures forall i :: 0 <= i < |r| ==>
      r[i].score == metrics[i].score && r[i].title == MetricName(table, metrics[i].name)
  {
    if |metrics| == 0 then []
    else [MetricRow(MetricName(table, metrics[0].name), metrics[0].score)] + MetricRows(table, metrics[1..])
  }

  /** What the card body shows. */
  datatype Body =
    | FailBadge
    | WaitingSpinner
    | TrainingSpinner
    | Details(params: seq<ParamRow>, chart: Option<seq<JsObject>>, metrics: Option<seq<MetricRow>>)

  /** The rendered card: a title over one body. */
  datatype Card = Card(title: Title, body: Body)

  /** `render`: the card for a record, given the metrics lookup table. */
  function Render(m: ModelRecord, table: seq<MetricConfig>): (c: Card)
    ensures c.body.FailBadge? <==> StatusOf(m) == Failure
    ensures c.body.WaitingSpinner? <==> StatusOf(m) == Creating
    ensures c.body.TrainingSpinner? <==> StatusOf(m) == Training
    ensures c.body.Details? <==> StatusOf(m) == Complete
    ensures !c.body.Details? ==> c.title == Plain(m.name)
    ensures c.body.Details? ==> c.title == TitleOf(m)
    ensures c.body.Details? ==> c.body.params == ParamsData(m.params)
    ensures c.body.Details? ==> c.body.chart == m.featureImportance
    ensures c.body.Details? ==> (c.body.metrics.Some? <==> m.metricList.Some?)
    ensures c.body.Details? && m.metricList.Some? ==> c.body.metrics == Some(MetricRows(table, m.metricList.value))
  {
    match StatusOf(m)
    case Failure => Card(Plain(m.name), FailBadge)
    case Creating => Card(Plain(m.name), WaitingSpinner)
    case Training => Card(Plain(m.name), TrainingSpinner)
    case Complete =>
      var metrics := match m.metricList
        case None => None
        case Some(l) => Some(MetricRows(table, l));
      Card(TitleOf(m), Details(ParamsData(m.params), m.featureImportance, metrics))
  }

  /** A metric whose key the table does not know is listed with a blank title. */
  lemma {:induction false} UnknownMetricIsBlank(m: ModelRecord, table: seq<MetricConfig>, i: int)
    requires StatusOf(m) == Complete && m.metricList.Some?
    requires 0 <= i < |m.metricList.value|
    requires forall j :: 0 <= j < |table| ==> table[j].value != m.metricList.value[i].name
    ensures Render(m, table).body.metrics.value[i] == MetricRow("", m.metricList.value[i].score)
  {
  }

  /** Which of the optional callbacks the owner supplied. */
  datatype Handlers = Handlers(getView: bool, getForecast: bool, openModelDetail: bool)

  /** A click on one of the card's action affordances. */
  datatype Action = ClickView(blockId: string) | ClickForecast(moduleId: string) | ClickOpen

  /** A callback invocation the card makes. */
  datatype Request =
    | ViewRequest(blockId: string)
    | ForecastRequest(moduleId: string)
    | OpenRequest(modelId: string, name: string, jobId: string)

  predicate Supplied(h: Handlers, a: Action)
  {
    match a
    case ClickView(_) => h.getView
    case ClickForecast(_) => h.getForecast
    case ClickOpen => h.openModelDetail
  }

  /** `view`, `forecast` and `openModelDetail`: forward the click to the owner's
      callback when it was supplied, and do nothing otherwise. */
  function Forward(h: Handlers, a: Action, m: ModelRecord, jobId: string): (r: Option<Request>)
    ensures r.Some? <==> Supplied(h, a)
    ensures r.Some? && a.ClickView? ==> r.value == ViewRequest(a.blockId)
    ensures r.Some? && a.ClickForecast? ==> r.value == ForecastRequest(a.moduleId)
    ensures r.Some? && a.ClickOpen? ==> r.value == OpenRequest(m.modelId, m.name, jobId)
  {
    if !Supplied(h, a) then None
    else match a
      case ClickView(id) => Some(ViewRequest(id))
      case ClickForecast(id) => Some(ForecastRequest(id))
      case ClickOpen => Some(OpenRequest(m.modelId, m.name, jobId))
  }
}
