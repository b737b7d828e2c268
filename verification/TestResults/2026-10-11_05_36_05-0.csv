TestResult.DisplayName,TestResult.Outcome,TestResult.Duration,TestResult.ResourceCount,RandomSeed
Links.InviteTokenAfterMarker (correctness),Passed,00:00:01.4278919,4729326,2
Links.TokenAfterScheme (correctness),Passed,00:00:00.1162802,224392,2
Links.DefaultGroupLinkToken (correctness),Passed,00:00:00.1146242,191589,2
Links.InviteTokenVerbatim (correctness),Passed,00:00:00.0937461,37710,2
Links.TokenAfter (well-formedness),Passed,00:00:00.0937364,23484,2
Links.InviteUrlToken (correctness),Passed,00:00:00.0567629,85616,2
Links.InviteTokenAfterMarker (well-formedness),Passed,00:00:00.0468064,43110,2
Links.TokenAfterEnds (correctness),Passed,00:00:00.0369658,53058,2
Links.TokenAfterScheme (well-formedness),Passed,00:00:00.0328878,27826,2
Links.InviteUrlToken (well-formedness),Passed,00:00:00.0254574,35426,2
Links.TokenAfterEnds (well-formedness),Passed,00:00:00.0226941,26726,2
