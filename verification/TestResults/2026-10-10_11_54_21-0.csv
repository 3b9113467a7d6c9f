TestResult.DisplayName,TestResult.Outcome,TestResult.Duration,TestResult.ResourceCount,RandomSeed
CuEncoder.MergeLoopSpec (correctness),Failed,00:00:30.3496340,23214338,1
CuEncoder.MergeNextEvaluated (correctness),Passed,00:00:00.8282785,256221,1
CuEncoder.MergeNext (well-formedness),Passed,00:00:00.8100186,254989,1
CuEncoder.MergeLoop (well-formedness),Passed,00:00:00.8083661,197349,1
CuEncoder.CompressMerge (well-formedness),Passed,00:00:00.7686990,851943,1
CuEncoder.MergeSearch (well-formedness),Passed,00:00:00.4439547,359168,1
CuEncoder.MergeSearch (correctness),Passed,00:00:00.4317203,605388,1
CuEncoder.MergeNextEvaluated (well-formedness),Passed,00:00:00.3576996,210838,1
CuEncoder.MergeStep (correctness),Passed,00:00:00.3442487,261287,1
CuEncoder.MergeLoopSpec (well-formedness),Passed,00:00:00.3223440,232952,1
CuEncoder.MergeTried (well-formedness),Passed,00:00:00.2766650,272505,1
CuEncoder.MergeStep (well-formedness),Passed,00:00:00.2532575,232616,1
Restrictions.DisableInterMergeMode (well-formedness),Passed,00:00:00.1481270,11354,1
Restrictions.DisableInterMergeCandidates (well-formedness),Passed,00:00:00.1457698,11354,1
CuEncoder.MergeCosts (well-formedness),Passed,00:00:00.1065219,57987,1
CabacContexts.InitMergeFlag (well-formedness),Passed,00:00:00.0177704,4360,1
CabacContexts.InitSaoMerge (well-formedness),Passed,00:00:00.0127851,3693,1
CabacContexts.InitMergeIdx (well-formedness),Passed,00:00:00.0121208,4360,1
