/** `update_graph`: select the records of one month (and, when one is chosen, one schedule)
    and describe a grouped bar chart of their four plan/actual quantities. */
module Chart {
  import opened Wrappers
  import opened Seqs
  import opened Dataset
  import opened Months

  /** One bar series: display name, `marker_color`, categories `x` and values `y`. */
  datatype Trace = Trace(name: string, markerColor: string, x: seq<string>, y: seq<int>)

  /** The layout fields the dashboard sets; the empty result sets only the title. */
  datatype Layout = Layout(
    title: string,
    barmode: Option<string>,
    xaxisTitle: Option<string>,
    yaxisTitle: Option<string>)

  /** A figure: its traces (`data`) and its layout. */
  datatype Figure = Figure(data: seq<Trace>, layout: Layout)

  const NO_DATA_TITLE: string := "Нет данных для отображения"
  const TITLE_PREFIX: string := "Данные за "
  const BARMODE: string := "group"
  const XAXIS_TITLE: string := "Изделие"
  const YAXIS_TITLE: string := "Значение"

  /** The four plotted quantities of a record. */
  datatype Measure = PlanYear | FactCumulative | PlanMonth | FactMonth

  /** The series in the order they are added to the figure. */
  const SERIES: seq<Measure> := [PlanYear, FactCumulative, PlanMonth, FactMonth]

  function Value(rec: Record, m: Measure): int
  {
    match m
    case PlanYear => rec.planYear
    case FactCumulative => rec.factCumulative
    case PlanMonth => rec.planMonth
    case FactMonth => rec.factMonth
  }

  function SeriesName(m: Measure): string
  {
    match m
    case PlanYear => "Годовой план"
    case FactCumulative => "Факт накопительным итогом"
    case PlanMonth => "План за месяц"
    case FactMonth => "Факт за месяц"
  }

  function SeriesColor(m: Measure): string
  {
    match m
    case PlanYear => "rgba(200, 200, 200, 0.8)"
    case FactCumulative => "rgba(100, 200, 100, 0.8)"
    case PlanMonth => "rgba(100, 150, 250, 0.8)"
    case FactMonth => "rgba(250, 150, 100, 0.8)"
  }

  /** Python truthiness of the graphic selection: a cleared dropdown (`None`) and the id 0 are
      both false, so neither filters by graphic. */
  predicate Truthy(graphic: Option<int>)
    ensures graphic == None ==> !Truthy(graphic)
    ensures graphic == Some(0) ==> !Truthy(graphic)
    ensures Truthy(graphic) ==> graphic.Some?
    ensures graphic.Some? && graphic.value != 0 ==> Truthy(graphic)
  {
    graphic.Some? && graphic.value != 0
  }

  /** The filter `update_graph` applies, stated as one condition on a record. */
  predicate Matches(rec: Record, graphic: Option<int>, month: int)
  {
    rec.month == month && (!Truthy(graphic) || rec.graphic == graphic.value)
  }

  function MatchesAt(graphic: Option<int>, month: int): Record -> bool
  {
    rec => Matches(rec, graphic, month)
  }

  /** The mask `data['M'] == selected_month`. */
  function InMonth(month: int): Record -> bool
  {
    (rec: Record) => rec.month == month
  }

  /** The mask `filtered_data['Graphic'] == selected_graphic`. */
  function OfGraphic(graphic: int): Record -> bool
  {
    (rec: Record) => rec.graphic == graphic
  }

  /** The records the chart shows. */
  function Selected(data: seq<Record>, graphic: Option<int>, month: int): seq<Record>
  {
    Mask(data, MatchesAt(graphic, month))
  }

  /** The `Name` column of a table. */
  function Names(sub: seq<Record>): seq<string>
  {
    seq(|sub|, i requires 0 <= i < |sub| => sub[i].name)
  }

  /** The column of one measure. */
  function Column(sub: seq<Record>, m: Measure): seq<int>
  {
    seq(|sub|, i requires 0 <= i < |sub| => Value(sub[i], m))
  }

  /** `go.Bar(x=sub['Name'], y=sub[<column>], name=..., marker_color=...)`. */
  function Bar(sub: seq<Record>, m: Measure): Trace
  {
    Trace(SeriesName(m), SeriesColor(m), Names(sub), Column(sub, m))
  }

  /** The figure returned when nothing matches. */
  function EmptyFigure(): Figure
  {
    Figure([], Layout(NO_DATA_TITLE, None, None, None))
  }

  function GroupedLayout(title: string): Layout
  {
    Layout(title, Some(BARMODE), Some(XAXIS_TITLE), Some(YAXIS_TITLE))
  }

  /** What `update_graph(selected_graphic, selected_month)` returns, or the error it raises. */
  function Chart(data: seq<Record>, graphic: Option<int>, month: int): (r: Result<Figure, IndexError>)
    ensures r.Ok? ==> |r.value.data| == 0 || |r.value.data| == 4
    ensures r.Ok? ==> forall k :: 0 <= k < |r.value.data| ==>
      |r.value.data[k].x| == |r.value.data[k].y| == |Selected(data, graphic, month)|
  {
    var sub := Selected(data, graphic, month);
    if sub == [] then Ok(EmptyFigure())
    else
      match MonthName(month)
      case Err(e) => Err(e)
      case Ok(monthName) =>
        Ok(Figure(seq(|SERIES|, k requires 0 <= k < |SERIES| => Bar(sub, SERIES[k])),
                  GroupedLayout(TITLE_PREFIX + monthName)))
  }

  /** `update_graph`, step by step: mask by month, then (for a truthy selection) by graphic;
      return the empty figure when nothing is left; otherwise add the four bar traces one by one
      and set the layout, whose title looks the month up. */
  method UpdateGraph(data: seq<Record>, selectedGraphic: Option<int>, selectedMonth: int)
    returns (figure: Result<Figure, IndexError>)
    ensures figure == Chart(data, selectedGraphic, selectedMonth)
  {
    var filtered := Mask(data, InMonth(selectedMonth));
    if Truthy(selectedGraphic) {
      filtered := Mask(filtered, OfGraphic(selectedGraphic.value));
      MaskMask(data, InMonth(selectedMonth), OfGraphic(selectedGraphic.value),
               MatchesAt(selectedGraphic, selectedMonth));
    } else {
      MaskExt(data, InMonth(selectedMonth), MatchesAt(selectedGraphic, selectedMonth));
    }
    assert filtered == Selected(data, selectedGraphic, selectedMonth);

    if filtered == [] {
      return Ok(EmptyFigure());
    }

    var traces: seq<Trace> := [];
    traces := traces + [Bar(filtered, PlanYear)];
    traces := traces + [Bar(filtered, FactCumulative)];
    traces := traces + [Bar(filtered, PlanMonth)];
    traces := traces + [Bar(filtered, FactMonth)];

    var monthName := MonthName(selectedMonth);
    if monthName.Err? {
      return Err(monthName.error);
    }
    assert traces == seq(|SERIES|, k requires 0 <= k < |SERIES| => Bar(filtered, SERIES[k]));
    figure := Ok(Figure(traces, GroupedLayout(TITLE_PREFIX + monthName.value)));
  }

  /** A record is shown iff its month is the selected one and, when the graphic selection is
      truthy, its graphic is the selected one; shown records keep their table order. */
  lemma SelectedSpec(data: seq<Record>, graphic: Option<int>, month: int)
    ensures var idx := MaskIndices(data, MatchesAt(graphic, month));
      && Embeds(idx, Selected(data, graphic, month), data)
      && (forall i :: 0 <= i < |data| ==>
            (i in idx <==> data[i].month == month && (!Truthy(graphic) || data[i].graphic == graphic.value)))
    ensures forall rec :: rec in Selected(data, graphic, month) <==>
      rec in data && rec.month == month && (!Truthy(graphic) || rec.graphic == graphic.value)
  {
    MaskPreservesOrder(data, MatchesAt(graphic, month));
    MaskKeepsExactly(data, MatchesAt(graphic, month));
    forall rec
      ensures rec in Selected(data, graphic, month) <==> rec in data && Matches(rec, graphic, month)
    {
      MaskMembership(data, MatchesAt(graphic, month), rec);
    }
  }

  /** A falsy graphic selection (none, or the id 0) filters by month only. */
  lemma FalsyGraphicIgnored(data: seq<Record>, graphic: Option<int>, month: int)
    requires !Truthy(graphic)
    ensures Chart(data, graphic, month) == Chart(data, None, month)
    ensures Selected(data, graphic, month) == Mask(data, InMonth(month))
  {
    MaskExt(data, MatchesAt(graphic, month), MatchesAt(None, month));
    MaskExt(data, MatchesAt(graphic, month), InMonth(month));
  }

  /** A non-zero graphic selection filters: the chart shows the month's records restricted to
      that graphic, in table order. */
  lemma TruthyGraphicFilters(data: seq<Record>, g: int, month: int)
    requires g != 0
    ensures Selected(data, Some(g), month) == Mask(Mask(data, InMonth(month)), OfGraphic(g))
    ensures forall rec :: rec in Selected(data, Some(g), month) ==> rec.graphic == g && rec.month == month
  {
    MaskMask(data, InMonth(month), OfGraphic(g), MatchesAt(Some(g), month));
  }

  /** When nothing matches, the result is the empty figure, whatever the month: the month
      name is never looked up, so even a month of 13 does not raise. Conversely the empty figure
      means nothing matched. */
  lemma EmptyResult(data: seq<Record>, graphic: Option<int>, month: int)
    ensures Selected(data, graphic, month) == [] <==> Chart(data, graphic, month) == Ok(EmptyFigure())
    ensures Selected(data, graphic, month) == [] ==>
      Chart(data, graphic, month).value.data == [] &&
      Chart(data, graphic, month).value.layout.title == "Нет данных для отображения"
  {
  }

  /** The only error: some record matches and the month is outside what Python indexing of a
      12-entry list accepts. */
  lemma ChartRaises(data: seq<Record>, graphic: Option<int>, month: int)
    ensures Chart(data, graphic, month).Err? <==>
      Selected(data, graphic, month) != [] && (month > 12 || month < -11)
  {
  }

  /** A non-empty selection in a month 1..12 gives four traces in a fixed order with fixed
      names and colours; each trace's categories are the selected records' names and its values
      the matching column, aligned record by record; the title names the month and the bars are
      grouped. */
  lemma ChartSeries(data: seq<Record>, graphic: Option<int>, month: int)
    requires Selected(data, graphic, month) != []
    requires 1 <= month <= 12
    ensures Chart(data, graphic, month).Ok?
    ensures var sub, fig := Selected(data, graphic, month), Chart(data, graphic, month).value;
      && |fig.data| == 4
      && fig.data[0].name == "Годовой план" && fig.data[0].markerColor == "rgba(200, 200, 200, 0.8)"
      && fig.data[1].name == "Факт накопительным итогом" && fig.data[1].markerColor == "rgba(100, 200, 100, 0.8)"
      && fig.data[2].name == "План за месяц" && fig.data[2].markerColor == "rgba(100, 150, 250, 0.8)"
      && fig.data[3].name == "Факт за месяц" && fig.data[3].markerColor == "rgba(250, 150, 100, 0.8)"
      && (forall k :: 0 <= k < 4 ==> |fig.data[k].x| == |sub| && |fig.data[k].y| == |sub|)
      && (forall k, i :: 0 <= k < 4 && 0 <= i < |sub| ==> fig.data[k].x[i] == sub[i].name)
      && (forall i :: 0 <= i < |sub| ==>
            && fig.data[0].y[i] == sub[i].planYear
            && fig.data[1].y[i] == sub[i].factCumulative
            && fig.data[2].y[i] == sub[i].planMonth
            && fig.data[3].y[i] == sub[i].factMonth)
      && fig.layout == Layout("Данные за " + MONTHS[month - 1], Some("group"), Some("Изделие"), Some("Значение"))
  {
  }
}
