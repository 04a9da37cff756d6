/** How often something runs. */
module Settings {
  datatype Frequency = NoFrequency | PerInstance | PerAlways | PerOnce | Other(name: string)
}
