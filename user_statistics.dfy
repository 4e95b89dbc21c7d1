/**
 * Summary statistics over user records: the average and the highest value
 * of a numeric property, for the fixed properties age, income and score,
 * and for any list of property names.
 */
module UserStatistics {
  import opened Common

  /** A user record: property name to numeric value. */
  type Record = map<string, real>

  /** Every record carries the property. */
  predicate HasProperty(data: seq<Record>, property: string) {
    forall i :: 0 <= i < |data| ==> property in data[i]
  }

  /** `data.reduce((acc, item) => acc + item[property], 0)`. */
  function Sum(data: seq<Record>, property: string): real
    requires HasProperty(data, property)
  {
    if data == [] then 0.0
    else Sum(data[..|data| - 1], property) + data[|data| - 1][property]
  }

  /** `calculateAverage`: 0 for no records, otherwise the sum over the count. */
  function Average(data: seq<Record>, property: string): (average: real)
    requires HasProperty(data, property)
    ensures data == [] ==> average == 0.0
    ensures average * |data| as real == Sum(data, property)
  {
    if |data| == 0 then 0.0 else Sum(data, property) / |data| as real
  }

  /** `data.reduce((max, item) => item[property] > max ? item[property] : max, seed)`. */
  function MaxFrom(data: seq<Record>, property: string, seed: real): (highest: real)
    requires HasProperty(data, property)
    ensures highest >= seed
    ensures forall i :: 0 <= i < |data| ==> data[i][property] <= highest
    ensures highest == seed || exists i :: 0 <= i < |data| && data[i][property] == highest
  {
    if data == [] then seed
    else
      var rest := data[..|data| - 1];
      var m := MaxFrom(rest, property, seed);
      assert forall i :: 0 <= i < |rest| ==> rest[i] == data[i];
      var last := data[|data| - 1][property];
      if last > m then last else m
  }

  /**
   * `findHighest`: 0 for no records; otherwise the fold is seeded with the
   * first record's value, so the result is always a value in the data,
   * also when every value is negative.
   */
  function Highest(data: seq<Record>, property: string): (highest: real)
    requires HasProperty(data, property)
    ensures data == [] ==> highest == 0.0
    ensures data != [] ==> exists i :: 0 <= i < |data| && data[i][property] == highest
    ensures forall i :: 0 <= i < |data| ==> data[i][property] <= highest
  {
    if |data| == 0 then 0.0 else MaxFrom(data, property, data[0][property])
  }

  /** All values negative: the highest is still one of them, not the seed 0 of an empty list. */
  lemma NegativeHighest()
    ensures Highest([map["age" := -5.0], map["age" := -3.0]], "age") == -3.0
  {
    var data := [map["age" := -5.0], map["age" := -3.0]];
    assert data[..1] == [map["age" := -5.0]];
    assert data[..1][..0] == data[..0];
  }

  /** The average and the highest value of one property. */
  datatype Stats = Stats(average: real, highest: real)

  const Zero := Stats(0.0, 0.0)

  /** The statistics of one property; `userData` is `None` for a null input. */
  function StatsOf(userData: Option<seq<Record>>, property: string): (stats: Stats)
    requires userData.Some? ==> HasProperty(userData.value, property)
    ensures userData.None? || userData.value == [] ==> stats == Zero
  {
    if userData.None? || userData.value == [] then Zero
    else Stats(Average(userData.value, property), Highest(userData.value, property))
  }

  datatype UserStats = UserStats(age: Stats, income: Stats, score: Stats)

  const StatisticProperties := ["age", "income", "score"]

  /** Every record carries age, income and score. */
  predicate Complete(data: seq<Record>) {
    HasProperty(data, "age") && HasProperty(data, "income") && HasProperty(data, "score")
  }

  /** `calculateUserStatistics`: null or empty input gives zeros everywhere. */
  function CalculateUserStatistics(userData: Option<seq<Record>>): (stats: UserStats)
    requires userData.Some? ==> Complete(userData.value)
    ensures userData.None? || userData.value == [] ==> stats == UserStats(Zero, Zero, Zero)
    ensures userData.Some? && userData.value != [] ==>
      && stats.age == Stats(Average(userData.value, "age"), Highest(userData.value, "age"))
      && stats.income == Stats(Average(userData.value, "income"), Highest(userData.value, "income"))
      && stats.score == Stats(Average(userData.value, "score"), Highest(userData.value, "score"))
  {
    if userData.None? || userData.value == [] then UserStats(Zero, Zero, Zero)
    else
      var data := userData.value;
      UserStats(
        Stats(Average(data, "age"), Highest(data, "age")),
        Stats(Average(data, "income"), Highest(data, "income")),
        Stats(Average(data, "score"), Highest(data, "score")))
  }

  /** Every requested property is carried by every record. */
  predicate HasProperties(data: seq<Record>, properties: seq<string>) {
    forall j :: 0 <= j < |properties| ==> HasProperty(data, properties[j])
  }

  /** The result object of `calculateStatistics`: one entry per requested property. */
  function Statistics(userData: Option<seq<Record>>, properties: seq<string>): (result: map<string, Stats>)
    requires userData.Some? ==> HasProperties(userData.value, properties)
  {
    map j | 0 <= j < |properties| :: properties[j] := StatsOf(userData, properties[j])
  }

  /** `calculateStatistics`: fills the result object one property at a time. */
  method CalculateStatistics(userData: Option<seq<Record>>, properties: seq<string>) returns (result: map<string, Stats>)
    requires userData.Some? ==> HasProperties(userData.value, properties)
    ensures result.Keys == set j | 0 <= j < |properties| :: properties[j]
    ensures forall j :: 0 <= j < |properties| ==> result[properties[j]] == StatsOf(userData, properties[j])
    ensures result == Statistics(userData, properties)
  {
    result := map[];
    for k := 0 to |properties|
      invariant result.Keys == set j | 0 <= j < k :: properties[j]
      invariant forall j :: 0 <= j < k ==> result[properties[j]] == StatsOf(userData, properties[j])
    {
      result := result[properties[k] := StatsOf(userData, properties[k])];
    }
    StatisticsEntries(userData, properties, result);
  }

  /** A map with exactly the requested keys and their statistics is the result object. */
  lemma StatisticsEntries(userData: Option<seq<Record>>, properties: seq<string>, result: map<string, Stats>)
    requires userData.Some? ==> HasProperties(userData.value, properties)
    requires result.Keys == set j | 0 <= j < |properties| :: properties[j]
    requires forall j :: 0 <= j < |properties| ==> result[properties[j]] == StatsOf(userData, properties[j])
    ensures result == Statistics(userData, properties)
  {
    var expected := Statistics(userData, properties);
    forall key | key in result ensures key in expected && result[key] == expected[key] {
      var j :| 0 <= j < |properties| && properties[j] == key;
    }
  }

  /** Null or empty input: every requested property gets zeros. */
  lemma EmptyStatistics(userData: Option<seq<Record>>, properties: seq<string>)
    requires userData.None? || userData.value == []
    ensures forall key :: key in Statistics(userData, properties) ==> Statistics(userData, properties)[key] == Zero
    ensures Statistics(userData, properties).Keys == set j | 0 <= j < |properties| :: properties[j]
  {
  }

  /** `calculateUserStatisticsGeneric`: the generic function on age, income and score. */
  method CalculateUserStatisticsGeneric(userData: Option<seq<Record>>) returns (result: map<string, Stats>)
    requires userData.Some? ==> Complete(userData.value)
    ensures result.Keys == {"age", "income", "score"}
    ensures result["age"] == CalculateUserStatistics(userData).age
    ensures result["income"] == CalculateUserStatistics(userData).income
    ensures result["score"] == CalculateUserStatistics(userData).score
  {
    result := CalculateStatistics(userData, StatisticProperties);
    GenericAgrees(userData);
  }

  /** The generic and the specific version report the same statistics for every input. */
  lemma GenericAgrees(userData: Option<seq<Record>>)
    requires userData.Some? ==> Complete(userData.value)
    ensures var generic := Statistics(userData, StatisticProperties);
      && generic.Keys == {"age", "income", "score"}
      && generic["age"] == CalculateUserStatistics(userData).age
      && generic["income"] == CalculateUserStatistics(userData).income
      && generic["score"] == CalculateUserStatistics(userData).score
  {
    var generic := Statistics(userData, StatisticProperties);
    assert StatisticProperties[0] == "age" && StatisticProperties[1] == "income" && StatisticProperties[2] == "score";
    assert generic.Keys == {"age", "income", "score"} by {
      forall key | key in generic ensures key in {"age", "income", "score"} {
        var j :| 0 <= j < 3 && StatisticProperties[j] == key;
      }
    }
  }
}
