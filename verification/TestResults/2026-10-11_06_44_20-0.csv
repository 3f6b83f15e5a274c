TestResult.DisplayName,TestResult.Outcome,TestResult.Duration,TestResult.ResourceCount,RandomSeed
DocumentStore.UploadAllUpserts (correctness),Passed,00:00:01.0962590,2070841,0
DocumentStore.UploadAllUpserts (well-formedness),Passed,00:00:00.2629564,75509,0
