/** The constants of the AWS settings file that the modelled code reads. */
module AwsSettings {

  const AWS_PROJECT_NAME: string := "neutrino"

  /** The only region the library supports (Oregon). */
  const AWS_DEFAULT_REGION: string := "us-west-2"

  const AWS_SECURITY_GROUPS: map<string, string> :=
    map["neutrino" := "sg-05811705b74edb37e", "default" := "sg-8c12d0fe"]
}
