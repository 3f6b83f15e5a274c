TestResult.DisplayName,TestResult.Outcome,TestResult.Duration,TestResult.ResourceCount,RandomSeed
DocumentStore.UploadAllUpserts (correctness),Failed,00:00:01.2801891,2070857,2
DocumentStore.UploadAllUpserts (well-formedness),Passed,00:00:00.2245574,75494,2
