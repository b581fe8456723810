/** The train/validation split helper: only the scikit-learn method is
    accepted; any other name is refused with an exception that names it. */
module TrainVal {
  import opened Values

  const SKLEARN := "sklearn"
  const UNSUPPORTED_PREFIX := "unsupported split method: "

  /** `split_train_val`: an unsupported method raises SplitMethodNotImplemented
      with a message naming it; for scikit-learn the function ends without a
      return statement, so it returns None. The data and the parameters are not
      read. */
  function SplitTrainVal(dataX: Value, dataY: Value, splitUsing: string, params: Dict): (r: Result<Value>)
    ensures r.Ok? <==> splitUsing == SKLEARN
    ensures r.Ok? ==> r.value == VNone
    ensures r.Err? ==> r.failure == SplitMethodNotImplemented(UNSUPPORTED_PREFIX + splitUsing)
  {
    if splitUsing !in [SKLEARN] then Err(SplitMethodNotImplemented(UNSUPPORTED_PREFIX + splitUsing))
    else Ok(VNone)
  }

  /** The message tells the refused methods apart: two refusals carry the same
      message exactly when the same method was asked for. */
  lemma RefusalNamesTheMethod(dataX: Value, dataY: Value, a: string, b: string, params: Dict)
    requires a != SKLEARN && b != SKLEARN
    ensures SplitTrainVal(dataX, dataY, a, params).failure == SplitTrainVal(dataX, dataY, b, params).failure
            <==> a == b
  {
    var ma := UNSUPPORTED_PREFIX + a;
    var mb := UNSUPPORTED_PREFIX + b;
    if ma == mb {
      assert a == ma[|UNSUPPORTED_PREFIX|..];
      assert b == mb[|UNSUPPORTED_PREFIX|..];
    }
  }

  /** The refusal expected for empty data and an unknown method name. */
  lemma EmptyDataUnknownMethodRefused()
    ensures SplitTrainVal(VList([]), VList([]), "not-implemented", map[])
            == Err(SplitMethodNotImplemented("unsupported split method: not-implemented"))
  {
  }
}
