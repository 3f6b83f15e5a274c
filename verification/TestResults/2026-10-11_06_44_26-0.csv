TestResult.DisplayName,TestResult.Outcome,TestResult.Duration,TestResult.ResourceCount,RandomSeed
DocumentStore.UploadAllUpserts (correctness),Failed,00:00:01.0648698,2070834,1
DocumentStore.UploadAllUpserts (well-formedness),Passed,00:00:00.2209072,75532,1
