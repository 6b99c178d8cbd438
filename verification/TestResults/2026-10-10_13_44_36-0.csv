TestResult.DisplayName,TestResult.Outcome,TestResult.Duration,TestResult.ResourceCount,RandomSeed
PageTransition.WithoutReady (well-formedness),Passed,00:00:00.2057614,287641,0
PageTransition.WithoutReadyOne (correctness),Passed,00:00:00.1158032,38124,0
PageTransition.WithoutReadyAppend (correctness),Passed,00:00:00.0802354,102211,0
PageTransition.WithoutReadyKeeps (correctness),Passed,00:00:00.0519076,76893,0
PageTransition.WithoutReadyKeeps (well-formedness),Passed,00:00:00.0404074,29285,0
PageTransition.WithoutReadyCons (correctness),Passed,00:00:00.0389794,38567,0
