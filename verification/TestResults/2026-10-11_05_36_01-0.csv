TestResult.DisplayName,TestResult.Outcome,TestResult.Duration,TestResult.ResourceCount,RandomSeed
Links.InviteTokenAfterMarker (correctness),Passed,00:00:01.0362226,3230330,1
Links.InviteTokenVerbatim (correctness),Passed,00:00:00.1439958,38129,1
Links.TokenAfter (well-formedness),Passed,00:00:00.1439524,23482,1
Links.TokenAfterScheme (correctness),Passed,00:00:00.1080592,448335,1
Links.DefaultGroupLinkToken (correctness),Passed,00:00:00.0921029,234211,1
Links.InviteUrlToken (correctness),Passed,00:00:00.0577235,84687,1
Links.InviteTokenAfterMarker (well-formedness),Passed,00:00:00.0480137,43121,1
Links.TokenAfterEnds (correctness),Passed,00:00:00.0370292,55875,1
Links.TokenAfterScheme (well-formedness),Passed,00:00:00.0329733,27827,1
Links.InviteUrlToken (well-formedness),Passed,00:00:00.0316350,35427,1
Links.TokenAfterEnds (well-formedness),Passed,00:00:00.0275000,26728,1
