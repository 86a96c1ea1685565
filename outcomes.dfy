/** Option, Result and Outcome values, and the ways one lidar image can be rejected. */
module Outcomes {

  datatype Option<+T> = None | Some(value: T)

  datatype Result<+T> = Ok(value: T) | Err(error: Failure)

  /** Pass, or the error a check raised. */
  datatype Outcome = Pass | Fail(error: Failure)

  /** Every exception that aborts the processing of one image, or the whole batch. */
  datatype Failure =
    | DateParseFailed      // no date in the file name, or pd.to_datetime rejected the --dates string
    | NoDate               // main passed None as the date: pd.to_datetime(None) is None and `.year` raises
    | WarpFailed           // gdalinfo / gdalwarp failed before the collection was touched
    | MaskFailed           // reading or masking the warped raster failed after the time write
    | BasinMismatch        // check_basin_match
    | EmptyCoordinates     // np.max / np.min of an empty coordinate vector
    | DomainMismatch       // check_domain_match
    | WaterYearMismatch    // check_water_year_match
    | DuplicateDate        // check_overwrite
    | MaskNameMismatch     // check_topo_basin_name, no keyword matched
    | MaskNameUnbound      // check_topo_basin_name, no keyword at all (`found` never bound)
    | StartYearUnassigned  // create_lidar_netcdf reads `start_yr`, which was never set
    | DateCountMismatch    // main: --dates given, but not one per image
    | UnorderableDates     // main: sorted() compares a None date with another key
}
