TestResult.DisplayName,TestResult.Outcome,TestResult.Duration,TestResult.ResourceCount,RandomSeed
Validation.TrimStartEnd (correctness),Passed,00:00:01.4293643,5817155,6
