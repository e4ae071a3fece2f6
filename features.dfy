/**
 `main` of itu_sdse_project/features.py: a copy of `split_training_data`,
 statement for statement, that reads cleaned_data.csv and writes the labels
 and the features.
 */
module Features {
  import opened Frames
  import opened Helpers
  import opened Encoding
  import opened Dataset

  /** The feature script runs the steps of `split_training_data` and so computes `Encode`. */
  method BuildFeatures(f: Frame, parse: string -> Option<real>) returns (r: Result<Split>)
    requires WellFormed(f) && NamesOnly(f)
    ensures r == Encode(f, parse)
  {
    r := SplitTrainingData(f, parse);
  }
}
