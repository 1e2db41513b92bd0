/** The algorithm selector of the forecasting tab. */
module Menu {

  datatype Algorithm = Arima | Prophet | Lstm

  /** The label shown for each algorithm. */
  function Label(a: Algorithm): string {
    match a
    case Arima => "ARIMA"
    case Prophet => "Prophet"
    case Lstm => "LSTM"
  }

  /** The offered algorithms: ARIMA and Prophet always, in that order, then LSTM exactly when
      TensorFlow could be imported; no algorithm is offered twice. */
  function Algorithms(tensorflowAvailable: bool): (r: seq<Algorithm>)
    ensures |r| == if tensorflowAvailable then 3 else 2
    ensures r[0] == Arima && r[1] == Prophet
    ensures Lstm in r <==> tensorflowAvailable
    ensures forall i, j :: 0 <= i < j < |r| ==> r[i] != r[j]
  {
    var always := [Arima, Prophet];
    if tensorflowAvailable then always + [Lstm] else always
  }

  /** The labels of the menu, as the selector displays them. */
  function Labels(tensorflowAvailable: bool): (r: seq<string>)
    ensures |r| == |Algorithms(tensorflowAvailable)|
    ensures r[..2] == ["ARIMA", "Prophet"]
    ensures "LSTM" in r <==> tensorflowAvailable
  {
    var algs := Algorithms(tensorflowAvailable);
    var r := seq(|algs|, i requires 0 <= i < |algs| => Label(algs[i]));
    assert forall i :: 0 <= i < |r| ==> (r[i] == "LSTM" <==> algs[i] == Lstm);
    r
  }

  /** Every offered choice can be run: the "TensorFlow not installed" warning, shown when LSTM
      is selected without TensorFlow, is unreachable through the menu. */
  lemma SelectionNeverLacksDependency(tensorflowAvailable: bool, choice: Algorithm)
    requires choice in Algorithms(tensorflowAvailable)
    ensures !(choice == Lstm && !tensorflowAvailable)
  {
  }
}
