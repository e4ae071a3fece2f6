/**
 The `__main__` block of data/interim/make_dataset.py: a copy of
 `create_training_data`, statement for statement, that reads the raw table
 and writes cleaned_data.csv.
 */
module Interim {
  import opened Frames
  import opened Cleaning
  import opened Dataset

  /** The cleaning script runs the steps of `create_training_data` and so computes `Clean`. */
  method MakeDataset(raw: Table, std: seq<real> -> real) returns (r: Result<Frame>)
    requires WellTyped(raw)
    ensures r == Clean(raw, std)
  {
    r := CreateTrainingData(raw, std);
  }
}
