TestResult.DisplayName,TestResult.Outcome,TestResult.Duration,TestResult.ResourceCount,RandomSeed
Links.TokenAfterEnds (correctness),Failed,00:00:04.8612541,20022676,3
Links.InviteTokenAfterMarker (correctness),Passed,00:00:02.1703566,7438930,3
Links.DefaultGroupLinkToken (correctness),Passed,00:00:00.1546197,260831,3
Links.TokenAfterScheme (correctness),Passed,00:00:00.1224000,233794,3
Links.InviteTokenVerbatim (correctness),Passed,00:00:00.1200302,36358,3
Links.TokenAfter (well-formedness),Passed,00:00:00.1169151,23481,3
Links.InviteUrlToken (correctness),Passed,00:00:00.0610318,86908,3
Links.TokenAfterScheme (well-formedness),Passed,00:00:00.0478181,27823,3
Links.InviteTokenAfterMarker (well-formedness),Passed,00:00:00.0422734,43117,3
Links.InviteUrlToken (well-formedness),Passed,00:00:00.0304230,35423,3
Links.TokenAfterEnds (well-formedness),Passed,00:00:00.0278651,26733,3
